/**
 * The content catalog record and the loader every page uses.
 *
 * The loader reads a JSON document from disk and parses it; both steps are
 * outside the model, so what they produced is given as a `LoadResult`.
 */
module ContentStore {

  /** One catalog entry. The landing page names the last two fields
      `location`/`category`, the other pages `Area`/`Category`; the model
      uses one record for both shapes. */
  datatype ContentInfo = ContentInfo(
    title: string,
    imagePath: string,
    slug: string,
    area: string,
    summary: string,
    category: string)

  /** What reading and parsing the catalog document produced. */
  datatype LoadResult =
    | Loaded(data: seq<ContentInfo>)
    | ReadFailed      // the file could not be read
    | ParseFailed     // the text was not valid JSON

  /** `getData`: the parsed records, or the empty list on any failure.
      It is total, so no failure escapes to the page. */
  function GetData(load: LoadResult): (data: seq<ContentInfo>)
    ensures load.Loaded? ==> data == load.data
    ensures !load.Loaded? ==> data == []
  {
    match load
    case Loaded(d) => d
    case ReadFailed => []
    case ParseFailed => []
  }
}
