/** What travels through the result queue. */
module Messages {
  import opened FileTree

  datatype Msg =
    | Event(scan: nat, ev: Ev)
    | Sentinel(scan: nat, canceled: bool, root: string)

  // Nothing of a scan follows its sentinel.
  ghost predicate SentinelsLast(log: seq<Msg>) {
    forall i, j :: 0 <= i < j < |log| && log[i].Sentinel? ==> log[j].scan != log[i].scan
  }

  // The events of one scan, in order.
  function EventsOf(log: seq<Msg>, s: nat): seq<Ev> {
    if log == [] then []
    else
      var m := log[|log| - 1];
      EventsOf(log[..|log| - 1], s) + (if m.Event? && m.scan == s then [m.ev] else [])
  }

  lemma {:induction false} EventsOfMembers(log: seq<Msg>, s: nat)
    ensures forall ev :: ev in EventsOf(log, s) <==> Event(s, ev) in log
  {
    if log != [] {
      var n := |log| - 1;
      EventsOfMembers(log[..n], s);
      assert log == log[..n] + [log[n]];
    }
  }
}
