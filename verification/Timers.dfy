/** The timers of a connection, their cached minimum, and the validation of its paths. */
module Timers {
  import opened Prelude

  const TIMERS: nat := 7
  const PACING: nat := 0
  const ACK_DELAY: nat := 1
  const PATH_VALIDATION: nat := 6

  ghost predicate IsMin(m: u64, s: seq<u64>) {
    m in s && forall i :: 0 <= i < |s| ==> m <= s[i]
  }

  /** The timers due at `now` that are handled by an operation, in the order of their types. */
  function Due(times: seq<u64>, now: u64): seq<nat> {
    if times == [] then []
    else
      var n := |times| - 1;
      if times[n] <= now && n != PACING && n != ACK_DELAY then Due(times[..n], now) + [n] else Due(times[..n], now)
  }

  /** The times after those due have fired. */
  function Fired(times: seq<u64>, now: u64): seq<u64> {
    seq(|times|, i requires 0 <= i < |times| => if times[i] <= now then U64_MAX else times[i])
  }

  lemma DueMore(times: seq<u64>, now: u64, t: nat)
    requires t < |times|
    ensures Due(times[..t + 1], now) ==
            if times[t] <= now && t != PACING && t != ACK_DELAY then Due(times[..t], now) + [t]
            else Due(times[..t], now)
  {
    assert times[..t + 1][..t] == times[..t];
  }

  class ConnTimers {
    const times: array<u64>
    var earliest: u64
    // What the timer wheel was last told.
    var wheel: u64

    ghost predicate Valid()
      reads this, times
    {
      times.Length == TIMERS && IsMin(earliest, times[..]) && wheel == earliest
    }

    constructor ()
      ensures Valid() && fresh(times) && earliest == U64_MAX
    {
      times := new u64[TIMERS](i => U64_MAX);
      earliest, wheel := U64_MAX, U64_MAX;
      new;
      assert times[..][0] == U64_MAX;
    }

    /** QuicGetEarliestExpirationTime. */
    method Earliest() returns (m: u64)
      requires times.Length == TIMERS
      ensures IsMin(m, times[..])
    {
      m := times[0];
      for t := 1 to TIMERS
        invariant IsMin(m, times[..t])
      {
        assert times[..t + 1] == times[..t] + [times[t]];
        if times[t] < m {
          m := times[t];
        }
      }
      assert times[..TIMERS] == times[..];
    }

    /** QuicConnTimerSetEx. */
    method Set(t: nat, delay: u64, now: u64)
      requires Valid() && t < TIMERS
      modifies this, times
      ensures Valid() && times[..] == old(times[..])[t := Wrap64(now + delay)]
    {
      times[t] := Wrap64(now + delay);
      var m := Earliest();
      if m != earliest {
        earliest := m;
        wheel := earliest;
      } else {
        assert IsMin(earliest, times[..]);
      }
    }

    /** QuicConnTimerCancel. */
    method Cancel(t: nat)
      requires Valid() && t < TIMERS
      modifies this, times
      ensures Valid() && times[..] == old(times[..])[t := U64_MAX]
    {
      ghost var before := times[..];
      assert earliest <= before[t];
      if earliest == U64_MAX {
        assert before[t := U64_MAX] == before;
        return;
      }
      if times[t] == earliest {
        times[t] := U64_MAX;
        var m := Earliest();
        if m != earliest {
          earliest := m;
          wheel := earliest;
        }
      } else {
        times[t] := U64_MAX;
        MinSurvives(earliest, before, t);
        assert times[..] == before[t := U64_MAX];
      }
    }

    /** QuicConnTimerExpired: every timer that is due fires, once, and the minimum is found on the way. */
    method Expired(now: u64) returns (queued: seq<nat>, flush: bool)
      requires Valid()
      modifies this, times
      ensures Valid() && times[..] == Fired(old(times[..]), now)
      ensures queued == Due(old(times[..]), now)
      ensures flush <==> old(times[PACING]) <= now || old(times[ACK_DELAY]) <= now
    {
      ghost var before := times[..];
      queued, flush := [], false;
      earliest := U64_MAX;
      ghost var at := 0;
      for t := 0 to TIMERS
        invariant forall i :: 0 <= i < TIMERS ==>
                    times[i] == if i < t && before[i] <= now then U64_MAX else before[i]
        invariant queued == Due(before[..t], now)
        invariant flush <==> (t > PACING && before[PACING] <= now) || (t > ACK_DELAY && before[ACK_DELAY] <= now)
        invariant forall i :: 0 <= i < t ==> earliest <= times[i]
        invariant earliest == U64_MAX || (at < t && times[at] == earliest)
      {
        DueMore(before, now, t);
        if times[t] <= now {
          times[t] := U64_MAX;
          if t == ACK_DELAY || t == PACING {
            flush := true;
          } else {
            queued := queued + [t];
          }
        } else if times[t] < earliest {
          earliest := times[t];
          at := t;
        }
      }
      assert before[..TIMERS] == before;
      assert times[..] == Fired(before, now);
      wheel := earliest;
      MinFound(earliest, times[..], at);
    }
  }

  lemma MinFound(m: u64, s: seq<u64>, at: nat)
    requires s != [] && forall i :: 0 <= i < |s| ==> m <= s[i]
    requires m == U64_MAX || (at < |s| && s[at] == m)
    ensures IsMin(m, s)
  {
    if m == U64_MAX {
      assert s[0] == m;
    }
  }

  lemma MinSurvives(m: u64, s: seq<u64>, t: nat)
    requires IsMin(m, s) && t < |s| && s[t] != m
    ensures IsMin(m, s[t := U64_MAX])
  {
    var i :| 0 <= i < |s| && s[i] == m;
    assert s[t := U64_MAX][i] == m;
  }

  lemma CountMore(s: seq<nat>, x: nat, t: nat)
    ensures multiset(s + [x])[t] == multiset(s)[t] + if x == t then 1 else 0
  {
  }

  /** The operation of a timer that is due is queued exactly once. */
  lemma {:induction false} DueOnce(times: seq<u64>, now: u64, t: nat)
    ensures multiset(Due(times, now))[t] ==
            if t < |times| && times[t] <= now && t != PACING && t != ACK_DELAY then 1 else 0
    decreases |times|
  {
    if times != [] {
      var front, n := times[..|times| - 1], |times| - 1;
      DueOnce(front, now, t);
      CountMore(Due(front, now), n, t);
      assert t < n ==> front[t] == times[t];
    }
  }

  /** A timer that has fired is not due again until it is set. */
  lemma NotDueAgain(times: seq<u64>, now: u64, later: u64, t: nat)
    requires later < U64_MAX && t < |times| && times[t] <= now
    ensures t !in Due(Fired(times, now), later)
  {
    DueOnce(Fired(times, now), later, t);
  }

  // -- Path validation -------------------------------------------------------------------------------

  /** A path with the start of its validation, zero if there is none, and how long that may take. */
  datatype Path = Path(id: nat, validated: bool, start: u64, timeout: u64)

  predicate Validating(p: Path) {
    !p.validated && p.start != 0
  }

  predicate TimedOut(p: Path, now: u64) {
    Validating(p) && Wrap64(now - p.start) > p.timeout
  }

  function Deadline(p: Path): u64 {
    Wrap64(p.start + p.timeout)
  }

  function Survivors(paths: seq<Path>, now: u64): multiset<Path> {
    if paths == [] then multiset{}
    else Survivors(paths[1..], now) + if TimedOut(paths[0], now) then multiset{} else multiset{paths[0]}
  }

  /** The earliest deadline of a validation in progress, or the largest time if there is none. */
  ghost predicate EarliestDeadline(paths: seq<Path>, d: u64) {
    && (forall i :: 0 <= i < |paths| && Validating(paths[i]) ==> d <= Deadline(paths[i]))
    && (d == U64_MAX || exists i :: 0 <= i < |paths| && Validating(paths[i]) && Deadline(paths[i]) == d)
  }

  lemma {:induction false} SurvivorsMeans(paths: seq<Path>, now: u64, p: Path)
    ensures Survivors(paths, now)[p] == if TimedOut(p, now) then 0 else multiset(paths)[p]
    decreases |paths|
  {
    if paths != [] {
      SurvivorsMeans(paths[1..], now, p);
      assert paths == [paths[0]] + paths[1..];
    }
  }

  class Connection {
    const timers: ConnTimers
    var paths: seq<Path>
    var closed: bool

    ghost predicate Valid()
      reads this, timers, timers.times
    {
      timers.Valid() && paths != []
    }

    constructor (first: Path)
      ensures Valid() && fresh(timers) && fresh(timers.times) && paths == [first] && !closed
    {
      timers := new ConnTimers();
      paths, closed := [first], false;
    }

    /** QuicPathRemove: the last path stays and the connection closes silently. */
    method Remove(index: nat) returns (removed: bool)
      requires index < |paths|
      modifies `paths, `closed
      ensures removed <==> |old(paths)| > 1
      ensures !removed ==> paths == old(paths) && closed
      ensures removed ==> closed == old(closed) && |paths| == |old(paths)| - 1
      ensures removed ==> multiset(paths) + multiset{old(paths)[index]} == multiset(old(paths))
      ensures removed && index > 0 ==> paths == old(paths)[..index] + old(paths)[index + 1..]
      ensures removed && index == 0 && (exists i :: 0 < i < |old(paths)| && old(paths)[i].validated) ==>
                paths[0].validated
    {
      if |paths| == 1 {
        if !closed {
          closed := true;
        }
        return false;
      }
      var at := index;
      if index == 0 {
        at := Promote();
      }
      RemovedOne(paths, at);
      paths := paths[..at] + paths[at + 1..];
      return true;
    }

    /** Makes the first path that the peer has validated, or else the second one, the active path. */
    method Promote() returns (fallback: nat)
      requires |paths| > 1
      modifies `paths
      ensures 0 < fallback < |paths| && paths[fallback] == old(paths)[0] && |paths| == |old(paths)|
      ensures multiset(paths) == multiset(old(paths))
      ensures (exists i :: 0 < i < |old(paths)| && old(paths)[i].validated) ==> paths[0].validated
    {
      fallback := 1;
      var j := 1;
      while j < |paths|
        invariant 1 <= j <= |paths| && fallback == 1
        invariant forall i :: 1 <= i < j ==> !paths[i].validated
      {
        if paths[j].validated {
          fallback := j;
          break;
        }
        j := j + 1;
      }
      Swapped(paths, fallback);
      paths := paths[0 := paths[fallback]][fallback := paths[0]];
    }

    /** QuicConnPathValidationTimerUpdate. */
    method UpdateTimer(now: u64) returns (ghost d: u64)
      requires Valid()
      modifies timers, timers.times
      ensures Valid() && EarliestDeadline(paths, d)
      ensures timers.times[..] ==
              old(timers.times[..])[PATH_VALIDATION := if d == U64_MAX then U64_MAX else Max(d, now)]
    {
      var earliest := FindEarliest();
      d := earliest;
      if earliest == U64_MAX {
        timers.Cancel(PATH_VALIDATION);
        return;
      }
      timers.Set(PATH_VALIDATION, if earliest > now then earliest - now else 0, now);
    }

    method FindEarliest() returns (earliest: u64)
      ensures EarliestDeadline(paths, earliest)
    {
      earliest := U64_MAX;
      var i := 0;
      while i < |paths|
        invariant 0 <= i <= |paths| && EarliestDeadline(paths[..i], earliest)
      {
        assert paths[..i + 1] == paths[..i] + [paths[i]];
        EarliestMore(paths[..i], paths[i], earliest);
        if !(paths[i].validated || paths[i].start == 0) {
          earliest := Min(Deadline(paths[i]), earliest);
        }
        i := i + 1;
      }
      assert paths[..|paths|] == paths;
    }

    /**
     Exactly the paths that timed out are removed; if that is all of them, one stays, no longer under
     validation, and the connection closes.
     */
    method RemoveTimedOut(now: u64)
      requires paths != []
      modifies `paths, `closed
      ensures paths != [] && forall i :: 0 <= i < |paths| ==> !TimedOut(paths[i], now)
      ensures closed == (old(closed) || Survivors(old(paths), now) == multiset{})
      ensures Survivors(old(paths), now) != multiset{} ==> multiset(paths) == Survivors(old(paths), now)
      ensures Survivors(old(paths), now) == multiset{} ==> |paths| == 1 && !Validating(paths[0])
    {
      var i := 0;
      ghost var before := paths;
      ghost var removed: multiset<Path> := multiset{};
      ghost var ended := false;
      while i < |paths|
        invariant 0 <= i <= |paths| && paths != []
        invariant !ended ==> Checked(before, paths, removed, i, now) && closed == old(closed)
        invariant ended ==> |paths| == 1 == i && closed && !Validating(paths[0]) && AllTimedOut(multiset(before), now)
        decreases |paths| - i
      {
        if !TimedOut(paths[i], now) {
          i := i + 1;
        } else {
          ghost var was := paths;
          var ok := Remove(i);
          if ok {
            CheckedMore(before, was, paths, removed, i, now);
            removed := removed + multiset{was[i]};
          } else {
            LastTimedOut(before, paths, removed, now);
            paths := paths[i := paths[i].(start := 0)];
            ended := true;
            i := i + 1;
          }
        }
      }
      if ended {
        NoSurvivors(before, now);
      } else {
        AllSurvive(before, paths, removed, now);
      }
    }

    /** QuicConnProcessPathValidationTimerOperation. The timer then stands at the earliest deadline left. */
    method ProcessPathValidation(now: u64, later: u64) returns (ghost d: u64)
      requires Valid()
      modifies this, timers, timers.times
      ensures Valid() && forall i :: 0 <= i < |paths| ==> !TimedOut(paths[i], now)
      ensures closed == (old(closed) || Survivors(old(paths), now) == multiset{})
      ensures Survivors(old(paths), now) != multiset{} ==> multiset(paths) == Survivors(old(paths), now)
      ensures Survivors(old(paths), now) == multiset{} ==> |paths| == 1 && !Validating(paths[0])
      ensures EarliestDeadline(paths, d)
      ensures timers.times[..] ==
              old(timers.times[..])[PATH_VALIDATION := if d == U64_MAX then U64_MAX else Max(d, later)]
    {
      RemoveTimedOut(now);
      d := UpdateTimer(later);
    }
  }

  lemma RemovedOne(paths: seq<Path>, i: nat)
    requires i < |paths|
    ensures multiset(paths[..i] + paths[i + 1..]) + multiset{paths[i]} == multiset(paths)
  {
    assert paths == paths[..i] + [paths[i]] + paths[i + 1..];
  }

  ghost predicate AllTimedOut(paths: multiset<Path>, now: u64) {
    forall p :: p in paths ==> TimedOut(p, now)
  }

  /** The first `i` paths have not timed out, and those removed have. */
  ghost predicate Checked(before: seq<Path>, paths: seq<Path>, removed: multiset<Path>, i: int, now: u64) {
    && i <= |paths| && (forall k :: 0 <= k < i ==> !TimedOut(paths[k], now))
    && multiset(paths) + removed == multiset(before) && AllTimedOut(removed, now)
  }

  lemma CheckedMore(before: seq<Path>, was: seq<Path>, paths: seq<Path>, removed: multiset<Path>, i: nat, now: u64)
    requires i < |was| && Checked(before, was, removed, i, now) && TimedOut(was[i], now)
    requires multiset(paths) + multiset{was[i]} == multiset(was) && |paths| == |was| - 1
    requires i > 0 ==> paths == was[..i] + was[i + 1..]
    ensures Checked(before, paths, removed + multiset{was[i]}, i, now)
  {
    var p := multiset{was[i]};
    assert multiset(paths) + (removed + p) == multiset(paths) + p + removed;
    forall k | 0 <= k < i
      ensures !TimedOut(paths[k], now)
    {
      assert paths[k] == was[k];
    }
  }

  lemma LastTimedOut(before: seq<Path>, paths: seq<Path>, removed: multiset<Path>, now: u64)
    requires |paths| == 1 && TimedOut(paths[0], now) && Checked(before, paths, removed, 0, now)
    ensures AllTimedOut(multiset(before), now)
  {
    assert paths == [paths[0]];
  }

  lemma Swapped(paths: seq<Path>, i: nat)
    requires 0 < i < |paths|
    ensures multiset(paths[0 := paths[i]][i := paths[0]]) == multiset(paths)
  {
  }

  lemma EarliestMore(paths: seq<Path>, p: Path, d: u64)
    requires EarliestDeadline(paths, d)
    ensures EarliestDeadline(paths + [p], if Validating(p) then Min(Deadline(p), d) else d)
  {
    var all := paths + [p];
    assert all[|paths|] == p;
    if d != U64_MAX {
      var i :| 0 <= i < |paths| && Validating(paths[i]) && Deadline(paths[i]) == d;
      assert all[i] == paths[i];
    }
  }

  lemma NoSurvivors(before: seq<Path>, now: u64)
    requires AllTimedOut(multiset(before), now)
    ensures Survivors(before, now) == multiset{}
  {
    forall q: Path
      ensures Survivors(before, now)[q] == 0
    {
      SurvivorsMeans(before, now, q);
    }
  }

  lemma AllSurvive(before: seq<Path>, paths: seq<Path>, removed: multiset<Path>, now: u64)
    requires Checked(before, paths, removed, |paths|, now) && paths != []
    ensures Survivors(before, now) == multiset(paths) && Survivors(before, now) != multiset{}
  {
    forall q: Path
      ensures Survivors(before, now)[q] == multiset(paths)[q]
    {
      SurvivorsMeans(before, now, q);
      if TimedOut(q, now) {
        assert q !in paths;
      } else {
        assert q !in removed;
      }
    }
    assert paths[0] in multiset(paths);
  }
}
