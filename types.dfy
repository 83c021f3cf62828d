/** The records the scraper produces (types.ts) and the browser facilities it
    calls but that are not modelled here. */
module Types {
  import opened Wrappers

  /** One search result. */
  datatype MovieItem = MovieItem(id: string, title: string, link: string, poster: string)

  /** One playable link of a title. */
  datatype Episode = Episode(name: string, url: string)

  /** Browser APIs the scraper calls, as uninterpreted total functions:
      `encodeURIComponent`, `new URL(relative, base).href`,
      `new URLSearchParams(query).get(name)` (which percent-decodes), and
      whether `new URL(s)` succeeds rather than throws. */
  datatype Apis = Apis(
    encodeUriComponent: string -> string,
    resolveUrl: (string, string) -> string,
    searchParam: (string, string) -> Option<string>,
    parsesAsUrl: string -> bool)
}
