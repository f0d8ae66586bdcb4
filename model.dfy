/** The records the reconnaissance engine produces and persists, and its scan options. */
module Model {

  /** What mining one script file found. */
  datatype JSFinding = JSFinding(fileUrl: string, secrets: seq<string>, endpoints: seq<string>)

  /** The aggregated result of one scan; the unit the baseline store keeps per domain. The
      timestamp is the clock reading taken when the engine was created. */
  datatype ReconResult = ReconResult(
    timestamp: int,
    domain: string,
    subdomains: seq<string>,
    endpoints: seq<string>,
    parameters: seq<string>,
    jsFiles: seq<JSFinding>,
    apis: seq<string>,
    waf: string,
    cors: seq<string>,
    technologies: seq<string>,
    requestSmuggling: string)

  /** The scan configuration, fixed for a whole run. */
  datatype Options = Options(
    domain: string,
    concurrency: int,
    timeout: int,
    userAgent: string,
    aiAssist: bool,
    deepJS: bool,
    smugglingCheck: bool,
    verbose: bool)
}
