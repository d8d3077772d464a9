/**
 * The Output key of a crawler's config section, shared by the article crawler
 * (section PttArticle) and the user crawler (section PttUser): 'both', 'database'
 * or 'json', any other value (or none) writing nowhere.
 */
module OutputConfig {
  import opened Wrappers

  /** Where crawled results go. */
  datatype Outputs = Outputs(json: bool, database: bool)

  function OutputsOf(output: Option<string>): (r: Outputs)
    ensures r.json <==> output == Some("both") || output == Some("json")
    ensures r.database <==> output == Some("both") || output == Some("database")
  {
    if output == Some("both") then Outputs(true, true)
    else if output == Some("database") then Outputs(false, true)
    else if output == Some("json") then Outputs(true, false)
    else Outputs(false, false)
  }
}
