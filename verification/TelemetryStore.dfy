/** The interface's bounded history of samples: gui/src-ui/stores/telemetry.ts. */
module TelemetryStore {
  import opened Bytes

  /** A JavaScript number, as far as a limit can tell them apart. */
  datatype Number = NaN | PlusInfinity | MinusInfinity | Finite(value: real)

  const DEFAULT_MAX_HISTORY := Finite(1800.0)
  const LEAST_MAX_HISTORY := 60.0

  /** `Math.max(60, n)`. */
  function AtLeast60(n: Number): Number {
    match n
    case NaN => NaN
    case PlusInfinity => PlusInfinity
    case MinusInfinity => Finite(LEAST_MAX_HISTORY)
    case Finite(r) => Finite(if r > LEAST_MAX_HISTORY then r else LEAST_MAX_HISTORY)
  }

  /** `length >= limit`, which never holds for a limit that is not a number. */
  predicate Reached(length: nat, limit: Number) {
    match limit
    case NaN => false
    case PlusInfinity => false
    case MinusInfinity => true
    case Finite(r) => length as real >= r
  }

  datatype Store<S> = Store(latest: Option<S>, history: seq<S>, maxHistory: Number)

  datatype Action<S> = Push(s: S) | SetMaxHistory(n: Number)

  predicate Valid<S>(t: Store<S>) {
    !t.maxHistory.MinusInfinity? && (t.maxHistory.Finite? ==> t.maxHistory.value >= LEAST_MAX_HISTORY)
  }

  function Fresh<S>(): Store<S> { Store(None, [], DEFAULT_MAX_HISTORY) }

  // ---- What a limit means ----

  function Ceiling(r: real): int { -((-r).Floor) }

  /** The number of samples a limit allows, if it allows only so many. */
  function Cap(limit: Number): Option<nat> {
    if limit.Finite? && limit.value >= 0.0 then Some(Ceiling(limit.value)) else None
  }

  function Clip(n: nat, cap: Option<nat>): (k: nat)
    ensures k <= n
  {
    if cap.Some? && cap.value < n then cap.value else n
  }

  /** The last `n` elements. */
  function Suffix<S>(s: seq<S>, n: nat): (t: seq<S>)
    requires n <= |s|
    ensures |t| == n
  {
    s[|s| - n..]
  }

  function Perform<S>(t: Store<S>, a: Action<S>): (u: Store<S>)
    requires Valid(t)
    ensures Valid(u)
  {
    match a
    case Push(s) => Store(Some(s), Suffix(t.history + [s], Clip(|t.history| + 1, Cap(t.maxHistory))), t.maxHistory)
    case SetMaxHistory(n) => t.(maxHistory := AtLeast60(n))
  }

  /** The slice keeps what the limit rounded up allows, for fractional limits too. */
  lemma SliceStart(length: nat, r: real)
    requires r >= LEAST_MAX_HISTORY
    ensures length as real >= r <==> length >= Ceiling(r)
    ensures length as real >= r ==> (length as real - r + 1.0).Floor == length + 1 - Ceiling(r)
  {
    assert (length as real - r + 1.0).Floor == length + 1 + (-r).Floor;
  }

  class TelemetryHistory<S> {
    var latest: Option<S>
    var history: seq<S>
    var maxHistory: Number

    ghost function State(): Store<S>
      reads this
    {
      Store(latest, history, maxHistory)
    }

    constructor ()
      ensures State() == Fresh()
    {
      latest := None;
      history := [];
      maxHistory := DEFAULT_MAX_HISTORY;
    }

    method Push(s: S)
      requires Valid(State())
      modifies this
      ensures State() == Perform(old(State()), Action.Push(s))
    {
      var next := history + [s];
      if Reached(|history|, maxHistory) {
        SliceStart(|history|, maxHistory.value);
        next := history[(|history| as real - maxHistory.value + 1.0).Floor..] + [s];
      } else if maxHistory.Finite? {
        SliceStart(|history|, maxHistory.value);
      }
      latest, history := Some(s), next;
    }

    method SetMaxHistory(n: Number)
      requires Valid(State())
      modifies this
      ensures State() == Perform(old(State()), Action.SetMaxHistory(n))
    {
      maxHistory := AtLeast60(n);
    }
  }

  // ---- Whole runs ----

  function Run<S>(t: Store<S>, actions: seq<Action<S>>): (u: Store<S>)
    requires Valid(t)
    ensures Valid(u)
    decreases |actions|
  {
    if actions == [] then t
    else Perform(Run(t, actions[..|actions| - 1]), actions[|actions| - 1])
  }

  /** Everything pushed, oldest first. */
  function Pushed<S>(actions: seq<Action<S>>): seq<S>
    decreases |actions|
  {
    if actions == [] then []
    else PushedBy(Pushed(actions[..|actions| - 1]), actions[|actions| - 1])
  }

  function PushedBy<S>(all: seq<S>, a: Action<S>): seq<S> {
    match a
    case Push(s) => all + [s]
    case SetMaxHistory(_) => all
  }

  predicate AtMost(a: Option<nat>, b: Option<nat>) { b.None? || (a.Some? && a.value <= b.value) }

  /** The largest cap the run ever had, if it always had one. */
  function LargestCap<S>(actions: seq<Action<S>>): Option<nat>
    decreases |actions|
  {
    if actions == [] then Cap(DEFAULT_MAX_HISTORY)
    else LargerCap(LargestCap(actions[..|actions| - 1]), actions[|actions| - 1])
  }

  function LargerCap<S>(cap: Option<nat>, a: Action<S>): (c: Option<nat>)
    ensures AtMost(cap, c)
  {
    match a
    case Push(_) => cap
    case SetMaxHistory(n) => if AtMost(Cap(AtLeast60(n)), cap) then cap else Cap(AtLeast60(n))
  }

  /** The history is the newest part of everything pushed, ends in `latest`, and never outgrew the caps. */
  predicate Tracks<S(==)>(t: Store<S>, all: seq<S>, largest: Option<nat>) {
    && |t.history| <= |all| && t.history == Suffix(all, |t.history|)
    && t.latest == (if all == [] then None else Some(all[|all| - 1]))
    && (all != [] ==> t.history != [])
    && AtMost(Cap(t.maxHistory), largest) && AtMost(Some(|t.history|), largest)
  }

  lemma SuffixAgain<S>(all: seq<S>, k: nat, s: S, n: nat)
    requires k <= |all| && n <= k + 1
    ensures Suffix(Suffix(all, k) + [s], n) == Suffix(all + [s], n)
  {
  }

  lemma PushKeepsTrack<S>(t: Store<S>, all: seq<S>, largest: Option<nat>, s: S)
    requires Valid(t) && Tracks(t, all, largest)
    ensures Tracks(Perform(t, Action.Push(s)), all + [s], largest)
  {
    SuffixAgain(all, |t.history|, s, Clip(|t.history| + 1, Cap(t.maxHistory)));
  }

  /** Only the limit differs. */
  lemma LimitKeepsTrack<S>(t: Store<S>, u: Store<S>, all: seq<S>, largest: Option<nat>, larger: Option<nat>)
    requires Tracks(t, all, largest) && u.history == t.history && u.latest == t.latest
    requires AtMost(largest, larger) && AtMost(Cap(u.maxHistory), larger)
    ensures Tracks(u, all, larger)
  {
  }

  lemma ActionKeepsTrack<S>(t: Store<S>, all: seq<S>, largest: Option<nat>, a: Action<S>)
    requires Valid(t) && Tracks(t, all, largest)
    ensures Tracks(Perform(t, a), PushedBy(all, a), LargerCap(largest, a))
  {
    match a {
      case Push(s) => PushKeepsTrack(t, all, largest, s);
      case SetMaxHistory(_) => LimitKeepsTrack(t, Perform(t, a), all, largest, LargerCap(largest, a));
    }
  }

  lemma {:induction false} HistoryIsASuffix<S>(actions: seq<Action<S>>)
    ensures Tracks(Run(Fresh(), actions), Pushed(actions), LargestCap(actions))
    decreases |actions|
  {
    if actions == [] {
      assert Tracks(Fresh<S>(), [], Cap(DEFAULT_MAX_HISTORY));
    } else {
      var before, last := actions[..|actions| - 1], actions[|actions| - 1];
      HistoryIsASuffix(before);
      ActionKeepsTrack(Run(Fresh(), before), Pushed(before), LargestCap(before), last);
    }
  }

  function Pushes<S>(samples: seq<S>): seq<Action<S>>
    decreases |samples|
  {
    if samples == [] then [] else Pushes(samples[..|samples| - 1]) + [Action.Push(samples[|samples| - 1])]
  }

  lemma RunExtend<S>(t: Store<S>, actions: seq<Action<S>>, a: Action<S>)
    requires Valid(t)
    ensures Run(t, actions + [a]) == Perform(Run(t, actions), a)
  {
    assert (actions + [a])[..|actions|] == actions;
  }

  /** The newest samples of `all`, as many as the limit of `t` allows. */
  function Newest<S>(t: Store<S>, all: seq<S>): Store<S>
    requires all != []
  {
    Store(Some(all[|all| - 1]), Suffix(all, Clip(|all|, Cap(t.maxHistory))), t.maxHistory)
  }

  lemma PushOntoNewest<S>(t: Store<S>, all: seq<S>, s: S)
    requires Valid(t) && all != []
    ensures Perform(Newest(t, all), Action.Push(s)) == Newest(t, all + [s])
  {
    SuffixAgain(all, Clip(|all|, Cap(t.maxHistory)), s, Clip(|all| + 1, Cap(t.maxHistory)));
  }

  /** Any number of pushes keeps the newest samples, as many as the limit allows. */
  lemma {:induction false} PushesKeepTheNewest<S>(t: Store<S>, samples: seq<S>)
    requires Valid(t) && samples != []
    ensures Run(t, Pushes(samples)) == Newest(t, t.history + samples)
    decreases |samples|
  {
    var first, s := samples[..|samples| - 1], samples[|samples| - 1];
    RunExtend(t, Pushes(first), Action.Push(s));
    assert first + [s] == samples;
    Associate(t.history, first, [s]);
    if first == [] {
      assert t.history + [s] == t.history + samples;
    } else {
      PushesKeepTheNewest(t, first);
      PushOntoNewest(t, t.history + first, s);
    }
  }

  // ---- How long the history is ----

  /** The last limit asked for. */
  function LastLimit<S>(actions: seq<Action<S>>): Number
    decreases |actions|
  {
    if actions == [] then DEFAULT_MAX_HISTORY
    else match actions[|actions| - 1]
         case Push(_) => LastLimit(actions[..|actions| - 1])
         case SetMaxHistory(n) => n
  }

  /** How many samples the limit in force allows after `actions`. */
  function CapAfter<S>(actions: seq<Action<S>>): Option<nat> { Cap(AtLeast60(LastLimit(actions))) }

  lemma {:induction false} LimitInForce<S>(actions: seq<Action<S>>)
    ensures Run(Fresh(), actions).maxHistory == AtLeast60(LastLimit(actions))
    decreases |actions|
  {
    if actions != [] {
      LimitInForce(actions[..|actions| - 1]);
    }
  }

  function PushCount<S>(actions: seq<Action<S>>): (n: nat)
    ensures n <= |actions|
    decreases |actions|
  {
    if actions == [] then 0
    else PushCount(actions[..|actions| - 1]) + if actions[|actions| - 1].Push? then 1 else 0
  }

  /** What the push at `i` leaves room for: the limit in force then, and everything pushed since. */
  ghost predicate Leaves<S>(actions: seq<Action<S>>, i: nat, n: int) {
    && i < |actions| && actions[i].Push? && CapAfter(actions[..i]).Some?
    && n == CapAfter(actions[..i]).value + PushCount(actions) - PushCount(actions[..i]) - 1
  }

  /** `n` is the number of pushes, or less if some push did not leave room for that many. */
  ghost predicate LengthIs<S>(actions: seq<Action<S>>, n: nat) {
    && n <= PushCount(actions)
    && (forall i, room :: Leaves(actions, i, room) ==> n <= room)
    && (n == PushCount(actions) || exists i :: Leaves(actions, i, n))
  }

  lemma LeavesExtend<S>(actions: seq<Action<S>>, a: Action<S>, i: nat, n: int)
    requires i < |actions|
    ensures Leaves(actions + [a], i, n + if a.Push? then 1 else 0) <==> Leaves(actions, i, n)
  {
    assert (actions + [a])[..i] == actions[..i] && (actions + [a])[..|actions|] == actions;
  }

  lemma LastPushLeaves<S>(actions: seq<Action<S>>, a: Action<S>, n: int)
    ensures Leaves(actions + [a], |actions|, n) <==> a.Push? && CapAfter(actions) == Some(n)
  {
    assert (actions + [a])[..|actions|] == actions;
  }

  lemma LengthAfterLimit<S>(actions: seq<Action<S>>, a: Action<S>, n: nat)
    requires LengthIs(actions, n) && a.SetMaxHistory?
    ensures LengthIs(actions + [a], n)
  {
    assert (actions + [a])[..|actions|] == actions;
    forall i, room | Leaves(actions + [a], i, room)
      ensures n <= room
    {
      LastPushLeaves(actions, a, room);
      LeavesExtend(actions, a, i, room);
    }
    if n != PushCount(actions) {
      var i :| Leaves(actions, i, n);
      LeavesExtend(actions, a, i, n);
    }
  }

  lemma LengthAfterPush<S>(actions: seq<Action<S>>, a: Action<S>, n: nat)
    requires LengthIs(actions, n) && a.Push?
    ensures LengthIs(actions + [a], Clip(n + 1, CapAfter(actions)))
  {
    assert (actions + [a])[..|actions|] == actions;
    var all, m := actions + [a], Clip(n + 1, CapAfter(actions));
    forall i, room | Leaves(all, i, room)
      ensures m <= room
    {
      if i == |actions| {
        LastPushLeaves(actions, a, room);
      } else {
        LeavesExtend(actions, a, i, room - 1);
      }
    }
    if m <= n {
      LastPushLeaves(actions, a, m);
    } else if n != PushCount(actions) {
      var i :| Leaves(actions, i, n);
      LeavesExtend(actions, a, i, n);
    }
  }

  /** The length of the history in terms of the pushes and limits alone. */
  lemma {:induction false} HistoryLength<S>(actions: seq<Action<S>>)
    ensures LengthIs(actions, |Run(Fresh(), actions).history|)
    decreases |actions|
  {
    if actions != [] {
      var before, last := actions[..|actions| - 1], actions[|actions| - 1];
      HistoryLength(before);
      LimitInForce(before);
      assert before + [last] == actions;
      if last.Push? {
        LengthAfterPush(before, last, |Run(Fresh(), before).history|);
      } else {
        LengthAfterLimit(before, last, |Run(Fresh(), before).history|);
      }
    }
  }

  /** The limit is below what was pushed, and every push left room for more than it. */
  ghost predicate LimitWasLowered<S>(actions: seq<Action<S>>) {
    && CapAfter(actions).Some? && PushCount(actions) > CapAfter(actions).value
    && forall i, room :: Leaves(actions, i, room) ==> room > CapAfter(actions).value
  }

  lemma OverIffLowered<S>(actions: seq<Action<S>>, n: nat)
    requires LengthIs(actions, n)
    ensures !AtMost(Some(n), CapAfter(actions)) <==> LimitWasLowered(actions)
  {
    if n != PushCount(actions) {
      var i :| Leaves(actions, i, n);
    }
  }

  lemma FinalPushLeaves<S>(actions: seq<Action<S>>)
    requires actions != [] && actions[|actions| - 1].Push? && CapAfter(actions).Some?
    ensures Leaves(actions, |actions| - 1, CapAfter(actions).value)
  {
    LastPushLeaves(actions[..|actions| - 1], actions[|actions| - 1], CapAfter(actions).value);
    assert actions[..|actions| - 1] + [actions[|actions| - 1]] == actions;
  }

  lemma LoweredByTheLast<S>(actions: seq<Action<S>>)
    requires LimitWasLowered(actions)
    ensures actions != [] && actions[|actions| - 1].SetMaxHistory?
  {
    if actions[|actions| - 1].Push? {
      FinalPushLeaves(actions);
    }
  }

  /**
   * When the history is longer than its limit, in terms of the actions alone: more was pushed than the
   * limit allows, and every push left room for more than that. The last action is then a limit.
   */
  lemma {:induction false} OverTheLimitIff<S>(actions: seq<Action<S>>)
    ensures !AtMost(Some(|Run(Fresh(), actions).history|), CapAfter(actions)) <==> LimitWasLowered(actions)
    ensures LimitWasLowered(actions) ==> actions != [] && actions[|actions| - 1].SetMaxHistory?
  {
    HistoryLength(actions);
    OverIffLowered(actions, |Run(Fresh(), actions).history|);
    if LimitWasLowered(actions) {
      LoweredByTheLast(actions);
    }
  }

  // ---- Growing without bound ----

  /** Some further samples make the history longer than `bound`. */
  ghost predicate Outgrows<S(!new)>(t: Store<S>, bound: nat)
    requires Valid(t)
  {
    exists samples: seq<S> :: |Run(t, Pushes(samples)).history| > bound
  }

  lemma {:induction false} NeverOverCap<S>(t: Store<S>, samples: seq<S>)
    requires Valid(t) && Cap(t.maxHistory).Some?
    ensures |Run(t, Pushes(samples)).history| <= |t.history| + Cap(t.maxHistory).value
  {
    if samples != [] {
      PushesKeepTheNewest(t, samples);
    }
  }

  lemma GrowsWithoutCap<S>(t: Store<S>, s: S, bound: nat) returns (samples: seq<S>)
    requires Valid(t) && Cap(t.maxHistory).None?
    ensures |Run(t, Pushes(samples)).history| > bound
  {
    samples := seq(bound + 1, _ => s);
    PushesKeepTheNewest(t, samples);
  }

  /**
   * After `actions`, further samples can make the history longer than any bound exactly when the last
   * limit asked for was no number or infinite.
   */
  lemma {:induction false} UnboundedIff<S(!new)>(actions: seq<Action<S>>, s: S)
    ensures (forall bound: nat :: Outgrows(Run(Fresh(), actions), bound))
            <==> LastLimit(actions) == NaN || LastLimit(actions) == PlusInfinity
  {
    var t := Run(Fresh(), actions);
    LimitInForce(actions);
    if LastLimit(actions) == NaN || LastLimit(actions) == PlusInfinity {
      forall bound: nat
        ensures Outgrows(t, bound)
      {
        var samples := GrowsWithoutCap(t, s, bound);
      }
    } else {
      var bound := |t.history| + Cap(t.maxHistory).value;
      if samples: seq<S> :| |Run(t, Pushes(samples)).history| > bound {
        NeverOverCap(t, samples);
      }
      assert !Outgrows(t, bound);
    }
  }

  // ---- In numbers ----

  /** Without a limit asked for, the newest 1800 samples are kept. */
  lemma {:induction false} KeepsEighteenHundred<S>(samples: seq<S>)
    requires samples != []
    ensures var h := Run(Fresh(), Pushes(samples)).history;
            h == samples[if |samples| > 1800 then |samples| - 1800 else 0..]
  {
    PushesKeepTheNewest(Fresh(), samples);
    assert [] + samples == samples;
  }

  /** A whole number of at least 60 is kept to exactly, anything below counts as 60. */
  lemma {:induction false} KeepsWhatWasAsked<S>(t: Store<S>, n: int, samples: seq<S>)
    requires Valid(t) && samples != []
    ensures var limit := if n < 60 then 60 else n;
            var all := t.history + samples;
            Run(Perform(t, SetMaxHistory(Finite(n as real))), Pushes(samples)).history
            == all[if |all| > limit then |all| - limit else 0..]
  {
    PushesKeepTheNewest(Perform(t, SetMaxHistory(Finite(n as real))), samples);
  }
}
