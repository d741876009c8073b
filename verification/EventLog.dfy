// The cluster's event log and its order-independent fingerprint.
module EventLog {
  import opened Sorting

  /** The bytes fed to the hash: every line, each ended by a newline. */
  function Joined(lines: seq<string>): string {
    if lines == [] then "" else Joined(lines[..|lines| - 1]) + lines[|lines| - 1] + "\n"
  }

  class Recorder {
    var events: seq<string>

    constructor ()
      ensures events == []
    {
      events := [];
    }

    method RecordEvent(event: string)
      modifies this
      ensures events == old(events) + [event]
    {
      events := events + [event];
    }

    /** EventHash up to the hash function, which is any function of the bytes fed to it. */
    method EventHash<T>(sum: string -> T) returns (hash: T)
      ensures hash == sum(Joined(Sort(events)))
    {
      var lines := Sort(events);
      var input := "";
      for i := 0 to |lines|
        invariant input == Joined(lines[..i])
      {
        assert lines[..i + 1][..i] == lines[..i];
        input := input + lines[i] + "\n";
      }
      assert lines[..|lines|] == lines;
      hash := sum(input);
    }
  }

  /** Recording the same events in any other order gives the same input and so the same hash. */
  lemma HashForgetsOrder<T>(sum: string -> T, events: seq<string>, events': seq<string>)
    requires multiset(events) == multiset(events')
    ensures Joined(Sort(events)) == Joined(Sort(events'))
    ensures sum(Joined(Sort(events))) == sum(Joined(Sort(events')))
  {
    SortForgetsOrder(events, events');
  }

  predicate OneLine(s: string) { '\n' !in s }

  /** The input of the hash tells different lists of lines apart, as long as no line holds a
      newline. */
  lemma {:induction false} JoinedIsInjective(a: seq<string>, b: seq<string>)
    requires forall k :: 0 <= k < |a| ==> OneLine(a[k])
    requires forall k :: 0 <= k < |b| ==> OneLine(b[k])
    requires Joined(a) == Joined(b)
    ensures a == b
    decreases |a|
  {
    if a == [] || b == [] {
      LinesLeaveTraces(a);
      LinesLeaveTraces(b);
    } else {
      var x, y := a[|a| - 1], b[|b| - 1];
      var p, q := Joined(a[..|a| - 1]), Joined(b[..|b| - 1]);
      assert p + x + "\n" == q + y + "\n";
      assert (p + x + "\n")[..|p + x|] == p + x && (q + y + "\n")[..|q + y|] == q + y;
      EndsWithNewline(a[..|a| - 1]);
      EndsWithNewline(b[..|b| - 1]);
      LastLineIsForced(p, x, q, y);
      JoinedIsInjective(a[..|a| - 1], b[..|b| - 1]);
      assert a == a[..|a| - 1] + [x] && b == b[..|b| - 1] + [y];
    }
  }

  lemma LinesLeaveTraces(a: seq<string>)
    ensures a != [] ==> Joined(a) != ""
  {
  }

  lemma EndsWithNewline(a: seq<string>)
    ensures Joined(a) == "" || Joined(a)[|Joined(a)| - 1] == '\n'
  {
  }

  lemma NotShorter(p: string, x: string, q: string, y: string)
    requires p + x == q + y && OneLine(x) && (q == "" || q[|q| - 1] == '\n')
    ensures |p| >= |q|
  {
    var s := p + x;
    forall j | |p| <= j < |s| ensures s[j] != '\n' {
      assert s[j] == x[j - |p|];
    }
    assert s == q + y;
    assert q != "" ==> s[|q| - 1] == '\n';
  }

  lemma LastLineIsForced(p: string, x: string, q: string, y: string)
    requires p + x == q + y && OneLine(x) && OneLine(y)
    requires p == "" || p[|p| - 1] == '\n'
    requires q == "" || q[|q| - 1] == '\n'
    ensures p == q && x == y
  {
    NotShorter(p, x, q, y);
    NotShorter(q, y, p, x);
    assert (p + x)[..|p|] == p && (q + y)[..|q|] == q && (p + x)[|p|..] == x && (q + y)[|q|..] == y;
  }

  /** So the hash input tells different collections of recorded events apart. */
  lemma HashInputSeparates(events: seq<string>, events': seq<string>)
    requires forall k :: 0 <= k < |events| ==> OneLine(events[k])
    requires forall k :: 0 <= k < |events'| ==> OneLine(events'[k])
    ensures Joined(Sort(events)) == Joined(Sort(events')) <==> multiset(events) == multiset(events')
  {
    if multiset(events) == multiset(events') { SortForgetsOrder(events, events'); }
    if Joined(Sort(events)) == Joined(Sort(events')) {
      SortedLines(events);
      SortedLines(events');
      JoinedIsInjective(Sort(events), Sort(events'));
    }
  }

  lemma SortedLines(events: seq<string>)
    requires forall k :: 0 <= k < |events| ==> OneLine(events[k])
    ensures forall k :: 0 <= k < |Sort(events)| ==> OneLine(Sort(events)[k])
  {
    var s := Sort(events);
    forall k | 0 <= k < |s| ensures OneLine(s[k]) {
      assert s[k] in multiset(s);
      assert s[k] in events;
    }
  }
}
