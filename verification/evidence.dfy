/** CORRELATOR/correlation_engine.cpp: evidence records and the join edges between them. */
module Evidence {
  import opened Text
  import opened JsonFields
  import opened JsonNumbers

  const USB_SLACK_MS: int := 5000
  const TWO_32: int := 0x1_0000_0000

  datatype Record = Record(
    endpoint: string, recordType: string, path: string, mountPoint: string, durationSeconds: int,
    time: int, pid: nat, parentPid: nat, rawLine: string,
    nativeRecordId: string, nativeSessionId: string, nativeSourceFile: string,
    nativeByteOffset: int, nativeContentHash: string)

  datatype Edge = Edge(matched: bool, reason: string, matchedFields: seq<string>, delta: int,
                       confidence: string, score: real, caveat: string)

  const NO_EDGE := Edge(false, "", [], 0, "", 0.0, "")
  const PROXIMITY_CAVEAT :=
    "Port evidence has no OS pid; this edge is based only on temporal proximity to the "
    + "USB session window, not a path or process-lineage bridge -- not a proven causal chain."

  // ---------------------------------------------------------------- parsing one line

  function TextOr(value: Option<string>, default: string): string {
    match value case Some(v) => v case None => default
  }

  function NumberOr(value: Option<int>, default: int): int {
    match value case Some(v) => v case None => default
  }

  /** The endpoint-specific field that names the kind of record. */
  function NormalizeRecordType(endpoint: string, line: string, topLevel: string): string {
    if endpoint == "process" then TextOr(ExtractString(line, "event_subtype"), topLevel)
    else if endpoint == "network" then TextOr(ExtractString(line, "record_type"), topLevel)
    else if endpoint == "file_integrity" then TextOr(ExtractString(line, "action"), topLevel)
    else if endpoint == "port" && topLevel == "" then TextOr(ExtractString(line, "event_type"), topLevel)
    else topLevel
  }

  function BridgePath(endpoint: string, line: string): string {
    if endpoint == "process" then TextOr(ExtractString(line, "canonical_path"), "")
    else if endpoint == "file_integrity" || endpoint == "application" then TextOr(ExtractString(line, "path"), "")
    else ""
  }

  function ParseEvidenceLine(endpoint: string, line: string): Record {
    var topLevel := TextOr(ExtractString(line, "type"), "");
    Record(
      endpoint,
      NormalizeRecordType(endpoint, line, topLevel),
      BridgePath(endpoint, line),
      if endpoint == "port" then TextOr(ExtractString(line, "mount_point"), "") else "",
      if endpoint == "port" then NumberOr(ExtractNumber(line, "duration_seconds"), 0) else 0,
      NumberOr(ExtractNumber(line, "t_unix_ms"), 0),
      NumberOr(ExtractNumber(line, "pid"), 0) % TWO_32,
      NumberOr(ExtractNumber(line, "parent_pid"), 0) % TWO_32,
      line,
      match ExtractNumber(line, "record_id") case Some(n) => Printed(n) case None => "",
      TextOr(ExtractString(line, "session_id"), ""),
      TextOr(ExtractString(line, "source_file"), ""),
      NumberOr(ExtractNumber(line, "byte_offset"), -1),
      TextOr(ExtractString(line, "content_hash"), ""))
  }

  predicate IsOperationalStatusLine(line: string) {
    || ExtractString(line, "type") in {Some("collector_health"), Some("startup"), Some("control_ack")}
    || ExtractString(line, "record_type") == Some("collector_health")
  }

  // ---------------------------------------------------------------- confidence

  function BaseWeight(reason: string): real {
    if reason == "same_pid" then 0.95
    else if reason == "usb_mount_path_match" then 0.90
    else if reason == "parent_child_pid" then 0.85
    else if reason == "sibling_pid" then 0.55
    else if reason == "port_temporal_proximity_only" then 0.30
    else 0.0
  }

  function Abs(x: int): nat { if x < 0 then -x else x }

  /** `ScoreConfidence`: the base weight, losing up to 30% as the time difference uses up the window. */
  function ScoreConfidence(reason: string, delta: int, window: int): real {
    var base := BaseWeight(reason);
    var safeWindow := if window > 0 then window else 1;
    var used := Abs(delta) as real / safeWindow as real;
    base * (1.0 - 0.3 * (if used > 1.0 then 1.0 else used))
  }

  // ---------------------------------------------------------------- edges

  function LineageReason(a: Record, b: Record): Option<string> {
    if a.pid != 0 && a.pid == b.pid then Some("same_pid")
    else if (a.pid != 0 && a.pid == b.parentPid) || (b.pid != 0 && b.pid == a.parentPid) then Some("parent_child_pid")
    else if a.parentPid != 0 && a.parentPid == b.parentPid then Some("sibling_pid")
    else None
  }

  function LineageFields(reason: string): seq<string> {
    if reason == "same_pid" then ["pid"]
    else if reason == "parent_child_pid" then ["pid", "parent_pid"]
    else ["parent_pid"]
  }

  /** `EvaluateLineageEdge`: process lineage within `window` milliseconds. */
  function LineageEdge(a: Record, b: Record, window: int): Edge {
    var delta := Abs(a.time - b.time);
    if a.time == 0 || b.time == 0 || delta > window then NO_EDGE
    else
      match LineageReason(a, b)
      case None => NO_EDGE
      case Some(reason) =>
        Edge(true, reason, LineageFields(reason), delta,
             if reason == "sibling_pid" then "medium" else "high",
             ScoreConfidence(reason, delta, window), "")
  }

  function ToLower(c: char): char {
    if 'A' <= c <= 'Z' then (c as nat + 32) as char else c
  }

  /** An empty prefix never matches. */
  predicate StartsWithIgnoringCase(s: string, prefix: string) {
    prefix != "" && |prefix| <= |s| && forall i :: 0 <= i < |prefix| ==> ToLower(s[i]) == ToLower(prefix[i])
  }

  /** First and last instant at which other evidence is close to the USB session that `port` ends. */
  function SessionStart(port: Record): int { port.time - port.durationSeconds * 1000 }

  predicate InSession(port: Record, time: int) {
    SessionStart(port) - USB_SLACK_MS <= time <= port.time + USB_SLACK_MS
  }

  function SessionDelta(port: Record, time: int): int {
    if time > port.time then time - port.time
    else if time < SessionStart(port) then SessionStart(port) - time
    else 0
  }

  /** `EvaluatePortBridgeEdge`: only a session record with a mount point bridges to other endpoints. */
  function PortBridgeEdge(port: Record, other: Record): Edge {
    if port.endpoint != "port" || other.endpoint == "port" then NO_EDGE
    else if other.time == 0 || port.time == 0 || port.mountPoint == "" then NO_EDGE
    else if !InSession(port, other.time) then NO_EDGE
    else
      var delta := SessionDelta(port, other.time);
      if other.path != "" && StartsWithIgnoringCase(other.path, port.mountPoint) then
        Edge(true, "usb_mount_path_match", ["mount_point", "path"], delta, "high",
             ScoreConfidence("usb_mount_path_match", delta, USB_SLACK_MS), "")
      else
        Edge(true, "port_temporal_proximity_only", [], delta, "low",
             ScoreConfidence("port_temporal_proximity_only", delta, USB_SLACK_MS), PROXIMITY_CAVEAT)
  }

  function EvaluateEdge(a: Record, b: Record, window: int): Edge {
    if a.endpoint == "port" then PortBridgeEdge(a, b)
    else if b.endpoint == "port" then PortBridgeEdge(b, a)
    else LineageEdge(a, b, window)
  }

  /** An edge does not depend on the order in which the two records are given. */
  lemma EdgeIsSymmetric(a: Record, b: Record, window: int)
    ensures EvaluateEdge(a, b, window) == EvaluateEdge(b, a, window)
  {
    assert Abs(a.time - b.time) == Abs(b.time - a.time);
    assert LineageReason(a, b) == LineageReason(b, a);
  }

  lemma ScoreBounds(reason: string, delta: int, window: int)
    ensures 0.7 * BaseWeight(reason) <= ScoreConfidence(reason, delta, window) <= BaseWeight(reason)
  {
    var base := BaseWeight(reason);
    var safeWindow := if window > 0 then window else 1;
    var used := Abs(delta) as real / safeWindow as real;
    var fraction := if used > 1.0 then 1.0 else used;
    assert 0.0 <= fraction <= 1.0;
    assert base * 0.7 <= base * (1.0 - 0.3 * fraction) <= base * 1.0;
  }

  /** A matched edge has a known reason, joins records with usable times, never two port records,
      and scores between 70% and 100% of its reason's weight; an unmatched one carries nothing. */
  lemma MatchedEdge(a: Record, b: Record, window: int)
    ensures var e := EvaluateEdge(a, b, window);
            if e.matched then
              && a.time != 0 && b.time != 0
              && BaseWeight(e.reason) > 0.0
              && 0.7 * BaseWeight(e.reason) <= e.score <= BaseWeight(e.reason)
              && (e.caveat != "" <==> e.reason == "port_temporal_proximity_only")
              && !(a.endpoint == "port" && b.endpoint == "port")
            else e == NO_EDGE
  {
    var e := EvaluateEdge(a, b, window);
    ScoreBounds(e.reason, e.delta, if a.endpoint == "port" || b.endpoint == "port" then USB_SLACK_MS else window);
  }

  /** The window is respected exactly: lineage needs the two times within `window`,
      a bridge needs the other record inside the slackened session. */
  lemma EdgeWindow(a: Record, b: Record, window: int)
    requires EvaluateEdge(a, b, window).matched
    ensures a.endpoint != "port" && b.endpoint != "port" ==> Abs(a.time - b.time) <= window
    ensures a.endpoint == "port" ==> InSession(a, b.time) && a.mountPoint != ""
    ensures b.endpoint == "port" ==> InSession(b, a.time) && b.mountPoint != ""
  {
  }
}
