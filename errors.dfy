/** The ways a scrape can end without writing a table. */
module Errors {
  import opened Wrappers

  /** Raw bytes of an HTTP response body. */
  type Bytes = seq<bv8>

  datatype ScrapeError =
      /** The hospital's page answered with a status other than 200. */
    | WebpageBadResponse(hospital: string, status: int, content: Bytes)
      /** No link on the page is keyed by the configured text or title (or its href is missing). */
    | ChargemasterNotFound(hospital: string, linkText: Option<string>)
      /** The archive download answered with a status other than 200. */
    | ChargemasterBadResponse(hospital: string, status: int, content: Bytes)
      /** A spreadsheet or CSV reader failed; its own error propagates unchanged. */
    | DecodeFailed(reason: string)
      /** `KeyError: 'href'`: an anchor with a `title` attribute but no `href`. */
    | HrefKeyError
      /** The archive download is not a zip file. */
    | BadZipFile
      /** `IndexError`: the archive has no members. */
    | ArchiveEmpty
      /** `AttributeError`: an archive read without a sheet number yields all sheets, which have no `columns`. */
    | NoColumnsAttribute
}
