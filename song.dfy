/** The saved song record. */
module SongTypes {
  import opened Wrappers

  /** `musicDataUri` is optional in the record; `createdAt` is an ISO date string. */
  datatype Song = Song(
    id: string,
    title: string,
    prompt: string,
    lyrics: string,
    style: string,
    musicDataUri: Option<string>,
    musicDescription: string,
    createdAt: string)
}
