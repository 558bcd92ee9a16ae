/** What becomes of the findings that a nuclei process writes (agent/internal/scan/nuclei/runner.go):
    one goroutine reads its lines and passes findings on, another waits for the process and drains what
    is left in the channel. */
module NucleiStream {
  import opened Options
  import Matcher

  // The scanner gives up on a line that fills its buffer.
  const MAX_LINE: nat := 4 * 1024 * 1024

  // A line that is blank or not JSON has no finding.
  datatype Line = Line(length: nat, finding: Option<Matcher.Finding>)

  datatype End = Completed | TimedOut | Exited(code: int)

  // A process that was started. It writes some lines and then ends, with findings unwritten if it was
  // stopped early; limitSeen(k): the reader finds its context done, by the time limit or otherwise, after
  // it has taken the k-th line; taken are those of the findings passed on that the goroutine which
  // waits for the process drains from the channel before the engine gets to them.
  datatype Scan = Scan(lines: seq<Line>, unwritten: seq<Matcher.Finding>, limitSeen: nat -> bool, taken: set<nat>,
      end: End)

  // A process that completes has written everything.
  predicate ScanOk(p: Scan) { p.end.Completed? ==> p.unwritten == [] }

  // The reader stops at this line, and passes on neither it nor what follows.
  predicate Cuts(p: Scan, k: nat)
    requires k < |p.lines|
  {
    p.lines[k].length >= MAX_LINE || p.limitSeen(k)
  }

  function FirstCut(p: Scan, k: nat): (n: nat)
    requires k <= |p.lines|
    ensures k <= n <= |p.lines| && (n < |p.lines| ==> Cuts(p, n))
    ensures forall j | k <= j < n :: !Cuts(p, j)
    decreases |p.lines| - k
  {
    if k == |p.lines| || Cuts(p, k) then k else FirstCut(p, k + 1)
  }

  function FindingsOf(lines: seq<Line>): (r: seq<Matcher.Finding>)
    ensures |r| <= |lines|
  {
    if lines == [] then []
    else
      var n := |lines| - 1;
      FindingsOf(lines[..n]) + (if lines[n].finding.Some? then [lines[n].finding.value] else [])
  }

  function PassedOn(p: Scan): seq<Matcher.Finding> { FindingsOf(p.lines[..FirstCut(p, 0)]) }

  function Untaken(passed: seq<Matcher.Finding>, taken: set<nat>): (r: seq<Matcher.Finding>)
    ensures |r| <= |passed|
  {
    if passed == [] then []
    else
      var n := |passed| - 1;
      Untaken(passed[..n], taken) + (if n in taken then [] else [passed[n]])
  }

  // The findings that reach the engine.
  function Received(p: Scan): seq<Matcher.Finding> { Untaken(PassedOn(p), p.taken) }

  // The findings of a whole scan.
  function Whole(p: Scan): seq<Matcher.Finding> { FindingsOf(p.lines) + p.unwritten }

  /** The loop of the reader: it passes on the findings of the lines before the first one at which it
      stops. */
  method ReadLines(p: Scan) returns (out: seq<Matcher.Finding>)
    ensures out == PassedOn(p)
    ensures (forall k | 0 <= k < |p.lines| :: !Cuts(p, k)) ==> out == FindingsOf(p.lines)
  {
    out := [];
    var k := 0;
    assert p.lines[..|p.lines|] == p.lines;
    while k < |p.lines| && p.lines[k].length < MAX_LINE
      invariant k <= |p.lines| && FirstCut(p, 0) == FirstCut(p, k) && out == FindingsOf(p.lines[..k])
    {
      if p.limitSeen(k) { return; }
      assert p.lines[..k + 1][..k] == p.lines[..k];
      if p.lines[k].finding.Some? { out := out + [p.lines[k].finding.value]; }
      k := k + 1;
    }
  }

  // ----- When nothing is lost -----

  /** Everything nuclei would find is written, no finding stands at or after a line at which the reader
      stops, and nothing that was passed on is drained. */
  predicate Finished(p: Scan) {
    && p.unwritten == []
    && (forall j, k | 0 <= j <= k < |p.lines| :: Cuts(p, j) ==> p.lines[k].finding.None?)
    && forall i | 0 <= i < |PassedOn(p)| :: i !in p.taken
  }

  lemma {:induction false} FindingsSplit(lines: seq<Line>, n: nat)
    requires n <= |lines|
    ensures |FindingsOf(lines[..n])| <= |FindingsOf(lines)|
    ensures FindingsOf(lines[..n]) == FindingsOf(lines) <==> forall k | n <= k < |lines| :: lines[k].finding.None?
    ensures |FindingsOf(lines[..n])| == |FindingsOf(lines)| ==> FindingsOf(lines[..n]) == FindingsOf(lines)
  {
    if n == |lines| {
      assert lines[..n] == lines;
    } else {
      var m := |lines| - 1;
      FindingsSplit(lines[..m], n);
      assert lines[..m][..n] == lines[..n];
    }
  }

  lemma {:induction false} UntakenExact(passed: seq<Matcher.Finding>, taken: set<nat>)
    ensures |Untaken(passed, taken)| == |passed| <==> forall i: nat | i < |passed| :: i !in taken
    ensures |Untaken(passed, taken)| == |passed| ==> Untaken(passed, taken) == passed
  {
    if passed != [] {
      var n := |passed| - 1;
      UntakenExact(passed[..n], taken);
      assert passed == passed[..n] + [passed[n]];
    }
  }

  /** The engine receives the findings of a whole scan if the process is finished, and fewer otherwise. */
  lemma ReceivedExactly(p: Scan)
    ensures Finished(p) ==> Received(p) == Whole(p)
    ensures !Finished(p) ==> |Received(p)| < |Whole(p)|
  {
    var n := FirstCut(p, 0);
    FindingsSplit(p.lines, n);
    UntakenExact(PassedOn(p), p.taken);
    if Finished(p) {
      assert FindingsOf(p.lines) + p.unwritten == FindingsOf(p.lines);
      assert n < |p.lines| ==> Cuts(p, n);
    } else if PassedOn(p) == FindingsOf(p.lines) {
      forall j, k | 0 <= j <= k < |p.lines| && Cuts(p, j) ensures p.lines[k].finding.None? {
        assert n <= j;
      }
    }
  }

  // A scan of which only the last finding is dropped.
  lemma LastDropped(p: Scan, last: nat)
    requires |p.lines| == last + 1 && p.lines[last].finding.Some? && Cuts(p, last)
    requires p.unwritten == [] && p.taken == {} && forall j | 0 <= j < last :: !Cuts(p, j)
    ensures Received(p) == FindingsOf(p.lines[..last])
    ensures Whole(p) == FindingsOf(p.lines[..last]) + [p.lines[last].finding.value]
  {
    assert FirstCut(p, 0) == last;
    UntakenExact(PassedOn(p), p.taken);
  }
}
