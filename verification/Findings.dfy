/** The finding every probe, agent and importer produces (pkg/models/finding.go). */
module Findings {
  datatype Value = Text(text: string) | Number(number: int) | Other

  /** scan_id and created_at are set by the store and live in its rows. */
  datatype Finding = Finding(
    id: string, probe: string, modus: string, dimension: string, criterium: string,
    subject: string, severity: string, attrs: map<string, Value>, evidence: string)

  const SEVERITIES := {"info", "observation", "concern", "finding"}
  const DIMENSIONS := {"", "juridisch", "technologie", "data_ai", "operationeel", "mens", "accountability", "standards"}
  const MODI := {"", "perimeter", "inventory", "egress", "drift", "import"}

  predicate Valid(f: Finding) {
    f.probe != "" && f.subject != "" && f.severity in SEVERITIES && f.dimension in DIMENSIONS && f.modus in MODI
  }

  /** The text attribute under key, or "" when it is missing or not text. */
  function TextAttr(f: Finding, key: string): string {
    if key in f.attrs && f.attrs[key].Text? then f.attrs[key].text else ""
  }
}
