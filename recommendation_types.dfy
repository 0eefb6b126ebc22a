/** The cloth details that the recommendation pipeline reads from the
    database: the fields the prompt builder and the outfit parser use. */
module RecommendationTypes {
  import opened Common

  /** A `clothes` row with its `clothes_styles` joined to style names;
      `imageUrl` is absent when the query does not select it. */
  datatype DbItem = DbItem(
    id: int, kind: string, name: string, colour: string,
    imageUrl: Option<string>, styles: seq<string>)
}
