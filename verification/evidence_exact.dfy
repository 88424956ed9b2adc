/** When two records match, said of their fields alone: which relation holds, how close their times are, and what the
    edge between them then says. */
module EvidenceExact {
  import opened Text
  import opened JsonFields
  import opened JsonPrinter
  import opened JsonNumbers
  import opened Evidence

  // ---------------------------------------------------------------- process lineage

  /** The three relations, strongest first. A process id of 0 is no process. */
  predicate SameProcess(a: Record, b: Record) { a.pid == b.pid && a.pid != 0 }

  predicate ParentAndChild(a: Record, b: Record) {
    || (a.parentPid == b.pid && b.pid != 0)
    || (b.parentPid == a.pid && a.pid != 0)
  }

  predicate Siblings(a: Record, b: Record) { a.parentPid == b.parentPid && a.parentPid != 0 }

  /** Both times are known, and they lie at most `window` milliseconds apart. */
  predicate Close(a: Record, b: Record, window: int) {
    a.time != 0 && b.time != 0 && a.time - window <= b.time <= a.time + window
  }

  /** What a lineage edge says for its strongest relation. */
  ghost predicate Says(e: Edge, reason: string, fields: seq<string>, confidence: string) {
    e.reason == reason && e.matchedFields == fields && e.confidence == confidence
  }

  /** Records of processes match exactly when their times are close and one of the three relations
      holds; the edge names the strongest one, the distance of the times, and no caveat. */
  lemma LineageExactly(a: Record, b: Record, window: int)
    requires a.endpoint != "port" && b.endpoint != "port"
    ensures var e := EvaluateEdge(a, b, window);
            && (e.matched <==> Close(a, b, window) && (SameProcess(a, b) || ParentAndChild(a, b) || Siblings(a, b)))
            && (e.matched ==>
                  && (if SameProcess(a, b) then Says(e, "same_pid", ["pid"], "high")
                      else if ParentAndChild(a, b) then Says(e, "parent_child_pid", ["pid", "parent_pid"], "high")
                      else Says(e, "sibling_pid", ["parent_pid"], "medium"))
                  && (e.delta == a.time - b.time || e.delta == b.time - a.time) && e.delta >= 0 && e.caveat == "")
  {
    hide ScoreConfidence;
    assert Abs(a.time - b.time) == if a.time >= b.time then a.time - b.time else b.time - a.time;
    ReasonsDiffer();
  }

  lemma ReasonsDiffer()
    ensures "same_pid" != "parent_child_pid" && "same_pid" != "sibling_pid" && "parent_child_pid" != "sibling_pid"
    ensures "usb_mount_path_match" != "port_temporal_proximity_only"
    ensures forall r <- ["same_pid", "parent_child_pid", "sibling_pid"] ::
              r != "usb_mount_path_match" && r != "port_temporal_proximity_only"
  {
    assert "same_pid"[1] == 'a' && "sibling_pid"[1] == 'i' && "parent_child_pid"[0] == 'p';
    assert "port_temporal_proximity_only"[1] == 'o' && "parent_child_pid"[1] == 'a';
    assert "usb_mount_path_match"[0] == 'u';
  }

  /** The score falls in a straight line from the weight of the relation at equal
      times to seven tenths of it at the edge of the window. */
  lemma LineageScore(a: Record, b: Record, window: int)
    requires a.endpoint != "port" && b.endpoint != "port" && EvaluateEdge(a, b, window).matched && window > 0
    ensures var e := EvaluateEdge(a, b, window);
            var weight := if SameProcess(a, b) then 0.95 else if ParentAndChild(a, b) then 0.85 else 0.55;
            e.score == weight - weight * 0.3 * (e.delta as real / window as real)
  {
    hide ScoreConfidence;
    LineageExactly(a, b, window);
    var e := EvaluateEdge(a, b, window);
    assert e.score == ScoreConfidence(e.reason, e.delta, window);
    assert e.delta <= window;
    Weights();
    ScoreInside(e.reason, e.delta, window);
  }

  lemma Weights()
    ensures BaseWeight("same_pid") == 0.95 && BaseWeight("parent_child_pid") == 0.85
            && BaseWeight("sibling_pid") == 0.55
    ensures BaseWeight("usb_mount_path_match") == 0.90 && BaseWeight("port_temporal_proximity_only") == 0.30
  {
    ReasonsDiffer();
  }

  lemma ScoreInside(reason: string, delta: int, window: int)
    requires 0 <= delta <= window && window > 0
    ensures ScoreConfidence(reason, delta, window)
         == BaseWeight(reason) - BaseWeight(reason) * 0.3 * (delta as real / window as real)
  {
    hide BaseWeight;
    var base, used := BaseWeight(reason), delta as real / window as real;
    assert used <= 1.0;
    assert Abs(delta) == delta;
    assert base * (1.0 - 0.3 * used) == base - base * 0.3 * used;
  }

  // ---------------------------------------------------------------- bridges to a USB session

  predicate SameLetter(c: char, d: char) {
    || c == d
    || ('A' <= c <= 'Z' && d as int == c as int + 32)
    || ('A' <= d <= 'Z' && c as int == d as int + 32)
  }

  /** The path begins with the mount point, whatever the case of its letters. */
  predicate Under(path: string, mount: string) {
    mount != "" && |mount| <= |path| && forall i :: 0 <= i < |mount| ==> SameLetter(path[i], mount[i])
  }

  lemma UnderIsPrefix(path: string, mount: string)
    ensures Under(path, mount) <==> StartsWithIgnoringCase(path, mount)
  {
    hide SameLetter, ToLower;
    forall i | 0 <= i < |mount| && i < |path|
      ensures SameLetter(path[i], mount[i]) <==> ToLower(path[i]) == ToLower(mount[i])
    {
      LettersAgree(path[i], mount[i]);
    }
  }

  lemma LettersAgree(c: char, d: char)
    ensures SameLetter(c, d) <==> ToLower(c) == ToLower(d)
  {
  }

  /** Within the session that the port record ends, or at most five seconds before or after it. */
  predicate NearSession(port: Record, other: Record) {
    && port.time != 0 && other.time != 0 && port.mountPoint != ""
    && port.time - 1000 * port.durationSeconds - 5000 <= other.time <= port.time + 5000
  }

  /** A record of another endpoint matches a USB session exactly when the session has a mount point and
      the record's time is near it; it is strong evidence when the record's path lies under the mount
      point, and otherwise bare proximity, marked by a caveat. The distance is that from the session. */
  lemma BridgeExactly(port: Record, other: Record, window: int)
    requires port.endpoint == "port" && other.endpoint != "port"
    ensures var e := EvaluateEdge(port, other, window);
            && EvaluateEdge(other, port, window) == e
            && (e.matched <==> NearSession(port, other))
            && (e.matched ==>
                  && (if Under(other.path, port.mountPoint)
                      then Says(e, "usb_mount_path_match", ["mount_point", "path"], "high") && e.caveat == ""
                      else Says(e, "port_temporal_proximity_only", [], "low") && e.caveat != "")
                  && e.delta == (if other.time > port.time then other.time - port.time
                                 else if other.time < port.time - 1000 * port.durationSeconds
                                 then port.time - 1000 * port.durationSeconds - other.time
                                 else 0))
  {
    hide ScoreConfidence, StartsWithIgnoringCase, Under;
    ReasonsDiffer();
    UnderIsPrefix(other.path, port.mountPoint);
    assert Under(other.path, port.mountPoint) ==> other.path != "" by { NotEmpty(other.path, port.mountPoint); }
    MatchedEdge(port, other, window);
  }

  lemma NotEmpty(path: string, mount: string)
    ensures Under(path, mount) ==> path != ""
  {
  }

  /** The score of a bridge, against five seconds of slack. */
  lemma BridgeScore(port: Record, other: Record, window: int)
    requires port.endpoint == "port" && other.endpoint != "port" && EvaluateEdge(port, other, window).matched
    requires port.durationSeconds >= 0
    ensures var e := EvaluateEdge(port, other, window);
            var weight := if Under(other.path, port.mountPoint) then 0.90 else 0.30;
            e.score == weight - weight * 0.3 * (e.delta as real / 5000.0)
  {
    hide ScoreConfidence, StartsWithIgnoringCase, Under;
    BridgeExactly(port, other, window);
    var e := EvaluateEdge(port, other, window);
    assert e.score == ScoreConfidence(e.reason, e.delta, USB_SLACK_MS);
    Weights();
    ScoreInside(e.reason, e.delta, USB_SLACK_MS);
  }

  /** Two port records never match. */
  lemma PortsDoNotMatch(a: Record, b: Record, window: int)
    requires a.endpoint == "port" && b.endpoint == "port"
    ensures !EvaluateEdge(a, b, window).matched
  {
  }

  // ---------------------------------------------------------------- both kinds

  /** Two records are evidence of one activity: a USB session and something near
      it, or related processes close in time. */
  predicate Related(a: Record, b: Record, window: int) {
    if a.endpoint == "port" then b.endpoint != "port" && NearSession(a, b)
    else if b.endpoint == "port" then NearSession(b, a)
    else Close(a, b, window) && (SameProcess(a, b) || ParentAndChild(a, b) || Siblings(a, b))
  }

  lemma MatchesExactly(a: Record, b: Record, window: int)
    ensures EvaluateEdge(a, b, window).matched <==> Related(a, b, window)
  {
    hide EvaluateEdge, NearSession, Close;
    if a.endpoint == "port" && b.endpoint == "port" { PortsDoNotMatch(a, b, window); }
    else if a.endpoint == "port" { BridgeExactly(a, b, window); }
    else if b.endpoint == "port" { BridgeExactly(b, a, window); }
    else { LineageExactly(a, b, window); }
  }
}
