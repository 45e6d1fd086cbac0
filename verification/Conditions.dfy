/** Status conditions: a list in which each type is set in place. */
module Conditions {
  import opened Prelude

  type Time = int

  /** The condition types the controllers write; anything else on the object is
      somebody else's. */
  datatype ConditionType =
    | Ready | Available | Progressing | Degraded | Synced | CredentialsReady
    | Foreign(name: string)

  datatype ConditionStatus = True | False | Unknown | Other(name: string)

  /** A reason or a message: a fixed text, one with figures filled in, or several
      joined. */
  datatype Text = Words(words: string) | Figures(words: string, figures: seq<int>) | Joined(parts: seq<Text>)

  datatype Condition = Condition(
    kind: ConditionType, status: ConditionStatus, lastTransition: Option<Time>,
    reason: Option<Text>, message: Option<Text>)

  datatype Update = Update(kind: ConditionType, status: ConditionStatus, reason: Text, message: Text)

  function BuildCondition(u: Update, now: Time): Condition {
    Condition(u.kind, u.status, Some(now), Some(u.reason), Some(u.message))
  }

  /** A changed status replaces the condition; an unchanged one keeps its
      transition time. */
  function Merge(existing: Condition, fresher: Condition): Condition {
    if existing.status != fresher.status then fresher
    else existing.(reason := fresher.reason, message := fresher.message)
  }

  function SetCondition(cs: seq<Condition>, c: Condition): seq<Condition> {
    if cs == [] then [c]
    else if cs[0].kind == c.kind then [Merge(cs[0], c)] + cs[1..]
    else [cs[0]] + SetCondition(cs[1..], c)
  }

  /** The list the controllers seed, update in place and publish. */
  class ConditionList {
    var items: seq<Condition>

    constructor (seed: seq<Condition>)
      ensures items == seed
    {
      items := seed;
    }

    method Set(c: Condition)
      modifies this
      ensures items == SetCondition(old(items), c)
    {
      var k := 0;
      while k < |items| && items[k].kind != c.kind
        invariant 0 <= k <= |items|
        invariant SetCondition(items, c) == items[..k] + SetCondition(items[k..], c)
      {
        assert items[k..][1..] == items[k + 1..];
        k := k + 1;
      }
      if k < |items| {
        if items[k].status != c.status {
          items := items[k := c];
        } else {
          items := items[k := items[k].(reason := c.reason, message := c.message)];
        }
      } else {
        items := items + [c];
      }
    }
  }

  // ---------------------------------------------------------------------
  // What one update does
  // ---------------------------------------------------------------------

  /** The first condition of a type, which is the one updates act on. */
  function Find(cs: seq<Condition>, kind: ConditionType): Option<Condition> {
    if cs == [] then None
    else if cs[0].kind == kind then Some(cs[0])
    else Find(cs[1..], kind)
  }

  function Kinds(cs: seq<Condition>): seq<ConditionType> {
    if cs == [] then [] else [cs[0].kind] + Kinds(cs[1..])
  }

  lemma {:induction false} KindsAt(cs: seq<Condition>)
    ensures |Kinds(cs)| == |cs|
    ensures forall k | 0 <= k < |cs| :: Kinds(cs)[k] == cs[k].kind
  {
    if cs != [] {
      KindsAt(cs[1..]);
    }
  }

  /** An update touches its own type alone, and there it installs or merges. */
  lemma {:induction false} SetThenFind(cs: seq<Condition>, c: Condition, kind: ConditionType)
    ensures Find(SetCondition(cs, c), kind)
         == if kind != c.kind then Find(cs, kind)
            else if Find(cs, kind).None? then Some(c)
            else Some(Merge(Find(cs, kind).value, c))
  {
    if cs != [] && cs[0].kind != c.kind {
      SetThenFind(cs[1..], c, kind);
    }
  }

  /** Conditions keep their places; a new type goes to the end. */
  lemma {:induction false} SetKeepsOrder(cs: seq<Condition>, c: Condition)
    ensures Kinds(SetCondition(cs, c)) == if c.kind in Kinds(cs) then Kinds(cs) else Kinds(cs) + [c.kind]
  {
    if cs != [] && cs[0].kind != c.kind {
      SetKeepsOrder(cs[1..], c);
    }
  }

  predicate Distinct<T(==)>(s: seq<T>) {
    forall j, k | 0 <= j < k < |s| :: s[j] != s[k]
  }

  lemma {:induction false} FindIsTheOne(cs: seq<Condition>, k: nat)
    requires k < |cs| && Distinct(Kinds(cs))
    ensures Find(cs, cs[k].kind) == Some(cs[k])
  {
    KindsAt(cs);
    if k > 0 {
      KindsAt(cs[1..]);
      assert Kinds(cs)[0] != Kinds(cs)[k];
      assert Distinct(Kinds(cs[1..])) by {
        assert forall j | 0 <= j < |cs| - 1 :: Kinds(cs[1..])[j] == Kinds(cs)[j + 1];
      }
      FindIsTheOne(cs[1..], k - 1);
    }
  }

  // ---------------------------------------------------------------------
  // Whole runs of updates
  // ---------------------------------------------------------------------

  /** An update and the clock reading its condition was built with. */
  datatype Timed = Timed(update: Update, at: Time)

  function Run(cs: seq<Condition>, us: seq<Timed>): seq<Condition> {
    if us == [] then cs
    else
      var last := us[|us| - 1];
      SetCondition(Run(cs, us[..|us| - 1]), BuildCondition(last.update, last.at))
  }

  /** The position of the latest update of a type. */
  function LastUpdate(us: seq<Timed>, kind: ConditionType): (r: Option<nat>)
    ensures r.None? <==> forall j | 0 <= j < |us| :: us[j].update.kind != kind
    ensures r.Some? ==>
      && r.value < |us| && us[r.value].update.kind == kind
      && (forall j | r.value < j < |us| :: us[j].update.kind != kind)
  {
    if us == [] then None
    else if us[|us| - 1].update.kind == kind then Some(|us| - 1)
    else
      assert forall j | 0 <= j < |us| - 1 :: us[..|us| - 1][j] == us[j];
      LastUpdate(us[..|us| - 1], kind)
  }

  /** The status a type is in, told from the updates alone. */
  function StatusFrom(initial: Option<Condition>, us: seq<Timed>, kind: ConditionType): (s: Option<ConditionStatus>)
  {
    match LastUpdate(us, kind)
    case Some(k) => Some(us[k].update.status)
    case None => if initial.Some? then Some(initial.value.status) else None
  }

  /** Update `k` added its type or changed its status. */
  predicate Flips(initial: Option<Condition>, us: seq<Timed>, k: nat)
    requires k < |us|
  {
    StatusFrom(initial, us[..k], us[k].update.kind) != Some(us[k].update.status)
  }

  /** The time of the latest update that added the type or flipped its status, or
      the time the condition already carried. */
  function TransitionTime(initial: Option<Condition>, us: seq<Timed>, kind: ConditionType): Option<Time> {
    if us == [] then
      if initial.Some? then initial.value.lastTransition else None
    else if us[|us| - 1].update.kind == kind && Flips(initial, us, |us| - 1) then Some(us[|us| - 1].at)
    else TransitionTime(initial, us[..|us| - 1], kind)
  }

  lemma {:induction false} RunOfOneKind(cs: seq<Condition>, us: seq<Timed>, kind: ConditionType)
    ensures
      var c := Find(Run(cs, us), kind);
      match LastUpdate(us, kind)
      case None => c == Find(cs, kind)
      case Some(k) =>
        && c.Some?
        && c.value.kind == kind
        && c.value.status == us[k].update.status
        && c.value.reason == Some(us[k].update.reason)
        && c.value.message == Some(us[k].update.message)
        && c.value.lastTransition == TransitionTime(Find(cs, kind), us, kind)
  {
    if us != [] {
      var n := |us| - 1;
      RunOfOneKind(cs, us[..n], kind);
      SetThenFind(Run(cs, us[..n]), BuildCondition(us[n].update, us[n].at), kind);
      if LastUpdate(us[..n], kind).None? {
        NoUpdateNoTransition(Find(cs, kind), us[..n], kind);
      }
      FindsItsKind(cs, kind);
    }
  }

  lemma {:induction false} FindsItsKind(cs: seq<Condition>, kind: ConditionType)
    ensures Find(cs, kind).Some? ==> Find(cs, kind).value.kind == kind
  {
    if cs != [] {
      FindsItsKind(cs[1..], kind);
    }
  }

  lemma {:induction false} NoUpdateNoTransition(initial: Option<Condition>, us: seq<Timed>, kind: ConditionType)
    requires LastUpdate(us, kind).None?
    ensures TransitionTime(initial, us, kind) == if initial.Some? then initial.value.lastTransition else None
  {
    if us != [] {
      NoUpdateNoTransition(initial, us[..|us| - 1], kind);
    }
  }

  lemma {:induction false} RunKeepsOrder(cs: seq<Condition>, us: seq<Timed>)
    ensures Kinds(cs) <= Kinds(Run(cs, us))
    ensures Distinct(Kinds(cs)) ==> Distinct(Kinds(Run(cs, us)))
  {
    if us != [] {
      var n := |us| - 1;
      RunKeepsOrder(cs, us[..n]);
      SetKeepsOrder(Run(cs, us[..n]), BuildCondition(us[n].update, us[n].at));
    }
  }

  /** After any run of updates to a duplicate-free list: types stay unique, the
      conditions that were there keep their order, and every condition tells the
      truth about when its status last changed and what its latest update said. */
  lemma TransitionTimeIsTrue(cs: seq<Condition>, us: seq<Timed>, k: nat)
    requires Distinct(Kinds(cs)) && k < |Run(cs, us)|
    ensures Distinct(Kinds(Run(cs, us))) && Kinds(cs) <= Kinds(Run(cs, us))
    ensures
      var c := Run(cs, us)[k];
      match LastUpdate(us, c.kind)
      case None => Find(cs, c.kind) == Some(c)
      case Some(j) =>
        && c.status == us[j].update.status
        && c.reason == Some(us[j].update.reason)
        && c.message == Some(us[j].update.message)
        && c.lastTransition == TransitionTime(Find(cs, c.kind), us, c.kind)
  {
    RunKeepsOrder(cs, us);
    FindIsTheOne(Run(cs, us), k);
    RunOfOneKind(cs, us, Run(cs, us)[k].kind);
  }

  /** The transition time, told by positions: it is the time of an update that
      flipped the status and after which no update of the type flipped it again. */
  lemma {:induction false} TransitionTimeIsLastFlip(initial: Option<Condition>, us: seq<Timed>, kind: ConditionType,
      k: nat)
    requires k < |us| && us[k].update.kind == kind && Flips(initial, us, k)
    requires forall j | k < j < |us| && us[j].update.kind == kind :: !Flips(initial, us, j)
    ensures TransitionTime(initial, us, kind) == Some(us[k].at)
    decreases |us|
  {
    var n := |us| - 1;
    if k < n {
      forall j | k <= j < n
        ensures Flips(initial, us[..n], j) == Flips(initial, us, j)
      {
        assert us[..n][..j] == us[..j];
      }
      TransitionTimeIsLastFlip(initial, us[..n], kind, k);
    }
  }
}
