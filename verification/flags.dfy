/** Event-sourced flags: the current flags are a fold of the append-only log, and ids come from it. */
module Flags {
  import opened Wrappers
  import opened Text

  datatype Event =
    | Raised(id: Option<string>, kind: string, summary: string, detail: Option<string>, needsDirector: bool, ts: nat)
    | Settled(id: Option<string>, resolution: string, note: Option<string>, ts: nat)
    | Unrelated

  datatype Flag = Flag(id: string, kind: string, summary: string, detail: Option<string>, needsDirector: bool, raisedAt: nat,
                       resolution: Option<string>, note: Option<string>, resolvedAt: nat)

  /** `status` is the resolution or "open"; an empty resolution therefore leaves the flag open. */
  predicate IsOpen(f: Flag) {
    f.resolution.None? || f.resolution.value == "" || f.resolution.value == "open"
  }

  function NewFlag(e: Event): Flag
    requires e.Raised? && e.id.Some?
  {
    Flag(e.id.value, e.kind, e.summary, e.detail, e.needsDirector, e.ts, None, None, 0)
  }

  function Closed(f: Flag, e: Event): Flag
    requires e.Settled?
  {
    f.(resolution := Some(e.resolution), note := e.note, resolvedAt := e.ts)
  }

  function IndexOf(flags: seq<Flag>, id: string): (r: Option<nat>)
    ensures r.Some? ==> r.value < |flags| && flags[r.value].id == id
    ensures r.None? ==> forall i :: 0 <= i < |flags| ==> flags[i].id != id
  {
    if flags == [] then None
    else if flags[|flags| - 1].id == id then Some(|flags| - 1)
    else IndexOf(flags[..|flags| - 1], id)
  }

  function Fold(flags: seq<Flag>, e: Event): seq<Flag> {
    if e.Raised? && e.id.Some? && IndexOf(flags, e.id.value).None? then flags + [NewFlag(e)]
    else if e.Settled? && e.id.Some? && IndexOf(flags, e.id.value).Some? then
      var i := IndexOf(flags, e.id.value).value;
      if IsOpen(flags[i]) then flags[i := Closed(flags[i], e)] else flags
    else flags
  }

  predicate DistinctIds(flags: seq<Flag>) {
    forall i, j :: 0 <= i < j < |flags| ==> flags[i].id != flags[j].id
  }

  /** The flags of a log, in order of raising. */
  function Derived(log: seq<Event>): (flags: seq<Flag>)
    ensures DistinctIds(flags)
  {
    if log == [] then [] else Fold(Derived(log[..|log| - 1]), log[|log| - 1])
  }

  lemma DerivedSnoc(log: seq<Event>, e: Event)
    ensures Derived(log + [e]) == Fold(Derived(log), e)
  {
    assert (log + [e])[..|log|] == log;
  }

  /** The insertion-ordered dictionary `byId` lists exactly these flags. */
  ghost predicate Lists(byId: map<string, Flag>, order: seq<string>, flags: seq<Flag>) {
    |order| == |flags| &&
    (forall i :: 0 <= i < |flags| ==> order[i] == flags[i].id && order[i] in byId && byId[order[i]] == flags[i]) &&
    (forall id :: id in byId ==> IndexOf(flags, id).Some?)
  }

  lemma ListsAdd(byId: map<string, Flag>, order: seq<string>, flags: seq<Flag>, f: Flag)
    requires Lists(byId, order, flags) && DistinctIds(flags) && f.id !in byId
    ensures IndexOf(flags, f.id).None?
    ensures Lists(byId[f.id := f], order + [f.id], flags + [f])
  {
    var grown := flags + [f];
    assert grown[..|flags|] == flags;
    forall id | id in byId[f.id := f]
      ensures IndexOf(grown, id).Some?
    {
    }
  }

  lemma ListsReplace(byId: map<string, Flag>, order: seq<string>, flags: seq<Flag>, f: Flag)
    requires Lists(byId, order, flags) && DistinctIds(flags) && f.id in byId
    ensures var i := IndexOf(flags, f.id);
            i.Some? && byId[f.id] == flags[i.value] && Lists(byId[f.id := f], order, flags[i.value := f])
  {
    var i := IndexOf(flags, f.id).value;
    var changed := flags[i := f];
    forall id | id in byId[f.id := f]
      ensures IndexOf(changed, id).Some?
    {
      var j := IndexOf(flags, if id == f.id then f.id else id).value;
      assert flags[j].id == changed[j].id;
    }
  }

  /** One event, as the fold sees it and as the dictionary does. */
  lemma ListsFold(byId: map<string, Flag>, order: seq<string>, flags: seq<Flag>, e: Event)
    requires Lists(byId, order, flags) && DistinctIds(flags)
    ensures e.Raised? && e.id.Some? && e.id.value !in byId ==>
              Lists(byId[e.id.value := NewFlag(e)], order + [e.id.value], Fold(flags, e))
    ensures e.Settled? && e.id.Some? && e.id.value in byId && IsOpen(byId[e.id.value]) ==>
              Lists(byId[e.id.value := Closed(byId[e.id.value], e)], order, Fold(flags, e))
    ensures e.Raised? && (e.id.None? || e.id.value in byId) ==> Fold(flags, e) == flags
    ensures e.Settled? && (e.id.None? || e.id.value !in byId || !IsOpen(byId[e.id.value])) ==> Fold(flags, e) == flags
    ensures e.Unrelated? ==> Fold(flags, e) == flags
  {
    if e.Raised? && e.id.Some? && e.id.value !in byId {
      ListsAdd(byId, order, flags, NewFlag(e));
    } else if e.Settled? && e.id.Some? && e.id.value in byId {
      ListsReplace(byId, order, flags, Closed(byId[e.id.value], e));
    }
  }

  lemma DerivedNext(entries: seq<Event>, k: nat)
    requires k < |entries|
    ensures Derived(entries[..k + 1]) == Fold(Derived(entries[..k]), entries[k])
  {
    assert entries[..k + 1] == entries[..k] + [entries[k]];
    DerivedSnoc(entries[..k], entries[k]);
  }

  lemma ListedInOrder(byId: map<string, Flag>, order: seq<string>, flags: seq<Flag>, i: nat)
    requires Lists(byId, order, flags) && i < |flags|
    ensures order[i] in byId && flags[..i] + [byId[order[i]]] == flags[..i + 1]
  {
  }

  /** The fold as the source runs it: a dictionary keyed by id, listed in insertion order. */
  method DeriveFlags(entries: seq<Event>) returns (flags: seq<Flag>)
    ensures flags == Derived(entries)
  {
    var byId: map<string, Flag> := map[];
    var order: seq<string> := [];
    ghost var listed := Derived([]);
    for k := 0 to |entries|
      invariant Lists(byId, order, listed) && listed == Derived(entries[..k])
    {
      var entry := entries[k];
      ListsFold(byId, order, listed, entry);
      DerivedNext(entries, k);
      listed := Fold(listed, entry);
      if entry.Raised? {
        if entry.id.None? || entry.id.value in byId {
          continue;
        }
        byId := byId[entry.id.value := NewFlag(entry)];
        order := order + [entry.id.value];
      } else if entry.Settled? {
        if entry.id.None? || entry.id.value !in byId {
          continue;
        }
        var current := byId[entry.id.value];
        if !IsOpen(current) {
          continue;
        }
        byId := byId[entry.id.value := Closed(current, entry)];
      }
    }
    assert entries[..|entries|] == entries;
    flags := InOrder(byId, order, listed);
  }

  /** The dictionary's values, in insertion order. */
  method InOrder(byId: map<string, Flag>, order: seq<string>, ghost listed: seq<Flag>) returns (flags: seq<Flag>)
    requires Lists(byId, order, listed)
    ensures flags == listed
  {
    flags := [];
    for i := 0 to |order|
      invariant flags == listed[..i]
    {
      ListedInOrder(byId, order, listed, i);
      flags := flags + [byId[order[i]]];
    }
  }

  // --- Ids --------------------------------------------------------------------------------------

  predicate IsDigit(c: char) {
    '0' <= c <= '9'
  }

  function Decimal(n: nat): (s: string)
    ensures s != "" && forall i :: 0 <= i < |s| ==> IsDigit(s[i])
  {
    if n < 10 then ['0' + (n as char)] else Decimal(n / 10) + ['0' + ((n % 10) as char)]
  }

  function DigitValue(c: char): (v: nat)
    requires IsDigit(c)
    ensures v < 10 && '0' + (v as char) == c
  {
    (c as int) - ('0' as int)
  }

  /** `int` of a digit string; leading zeros are allowed, as the host allows them. */
  function Numeral(s: string): nat
    requires forall i :: 0 <= i < |s| ==> IsDigit(s[i])
  {
    if s == "" then 0 else 10 * Numeral(s[..|s| - 1]) + DigitValue(s[|s| - 1])
  }

  lemma {:induction false} NumeralOfDecimal(n: nat)
    ensures Numeral(Decimal(n)) == n
  {
    var s := Decimal(n);
    if n >= 10 {
      NumeralOfDecimal(n / 10);
      assert s[..|s| - 1] == Decimal(n / 10);
    } else {
      assert s[..|s| - 1] == "";
    }
  }

  /** What follows the last '#', or the whole id when there is none. */
  function Suffix(id: string): string {
    if id == "" then ""
    else if id[|id| - 1] == '#' then ""
    else Suffix(id[..|id| - 1]) + [id[|id| - 1]]
  }

  lemma {:induction false} SuffixOf(head: string, digits: string)
    requires forall i :: 0 <= i < |digits| ==> digits[i] != '#'
    ensures Suffix(head + "#" + digits) == digits
  {
    var id := head + "#" + digits;
    if digits == "" {
      assert id[|id| - 1] == '#';
    } else {
      SuffixOf(head, digits[..|digits| - 1]);
      assert id[..|id| - 1] == head + "#" + digits[..|digits| - 1];
    }
  }

  /** The number an id counts as: its `#N` suffix when that is all digits, else nothing. */
  function NumberOf(id: string): Option<nat> {
    var s := Suffix(id);
    if s != "" && forall i :: 0 <= i < |s| ==> IsDigit(s[i]) then Some(Numeral(s)) else None
  }

  function MakeId(task: string, n: nat): string {
    task + "#" + Decimal(n)
  }

  lemma NumberOfMade(task: string, n: nat)
    ensures NumberOf(MakeId(task, n)) == Some(n)
  {
    var digits := Decimal(n);
    assert forall i :: 0 <= i < |digits| ==> IsDigit(digits[i]);
    SuffixOf(task, digits);
    NumeralOfDecimal(n);
    NumberOfDigits(MakeId(task, n), digits);
  }

  lemma NumberOfDigits(id: string, digits: string)
    requires Suffix(id) == digits && digits != "" && forall i :: 0 <= i < |digits| ==> IsDigit(digits[i])
    ensures NumberOf(id) == Some(Numeral(digits))
  {
  }

  predicate UsesId(log: seq<Event>, id: string) {
    exists i :: 0 <= i < |log| && log[i].Raised? && log[i].id == Some(id)
  }

  /** The largest numeric suffix of any raised id; planted, gap and duplicate ids included. */
  function MaxNumber(log: seq<Event>): nat {
    if log == [] then 0
    else
      var m, e := MaxNumber(log[..|log| - 1]), log[|log| - 1];
      if e.Raised? && e.id.Some? && NumberOf(e.id.value).Some? && NumberOf(e.id.value).value > m
      then NumberOf(e.id.value).value else m
  }

  lemma {:induction false} MaxCovers(log: seq<Event>, i: nat)
    requires i < |log| && log[i].Raised? && log[i].id.Some? && NumberOf(log[i].id.value).Some?
    ensures NumberOf(log[i].id.value).value <= MaxNumber(log)
  {
    if i < |log| - 1 {
      MaxCovers(log[..|log| - 1], i);
    }
  }

  function NextId(task: string, log: seq<Event>): string {
    MakeId(task, MaxNumber(log) + 1)
  }

  ghost predicate NumberAt(log: seq<Event>, i: int, n: nat) {
    0 <= i < |log| && log[i].Raised? && log[i].id.Some? && NumberOf(log[i].id.value) == Some(n)
  }

  lemma {:induction false} MaxIsThere(log: seq<Event>)
    ensures MaxNumber(log) > 0 ==> exists i :: NumberAt(log, i, MaxNumber(log))
  {
    if log != [] {
      var init := log[..|log| - 1];
      MaxIsThere(init);
      if MaxNumber(log) > 0 {
        if MaxNumber(log) == MaxNumber(init) {
          var i :| NumberAt(init, i, MaxNumber(init));
          assert NumberAt(log, i, MaxNumber(log));
        } else {
          assert NumberAt(log, |log| - 1, MaxNumber(log));
        }
      }
    }
  }

  /** The next id is the task's name and one more than the highest number in use, or one when there is none. */
  lemma NextIdSays(task: string, log: seq<Event>) returns (n: nat)
    ensures NextId(task, log) == task + ("#" + Decimal(n + 1))
    ensures forall i, m: nat :: NumberAt(log, i, m) ==> m <= n
    ensures n > 0 ==> exists i :: NumberAt(log, i, n)
  {
    n := MaxNumber(log);
    MaxIsThere(log);
    forall i, m: nat | NumberAt(log, i, m) ensures m <= n {
      MaxCovers(log, i);
    }
    assert task + "#" + Decimal(n + 1) == task + ("#" + Decimal(n + 1));
  }

  /** Whatever ids are already there, the next one is not among them. */
  lemma NextIdIsFresh(task: string, log: seq<Event>)
    ensures !UsesId(log, NextId(task, log))
  {
    NumberOfMade(task, MaxNumber(log) + 1);
    if UsesId(log, NextId(task, log)) {
      var i :| 0 <= i < |log| && log[i].Raised? && log[i].id == Some(NextId(task, log));
      MaxCovers(log, i);
    }
  }

  lemma FoldUses(flags: seq<Flag>, e: Event, id: string)
    ensures IndexOf(Fold(flags, e), id).Some? <==> IndexOf(flags, id).Some? || (e.Raised? && e.id == Some(id))
  {
    var after := Fold(flags, e);
    if IndexOf(flags, id).Some? {
      assert after[IndexOf(flags, id).value].id == id;
    } else if e.Raised? && e.id == Some(id) {
      assert after[|after| - 1].id == id;
    } else {
      assert forall k :: 0 <= k < |flags| ==> flags[k].id != id;
      assert forall k :: 0 <= k < |after| ==> after[k].id != id;
    }
  }

  lemma UsesIdSnoc(log: seq<Event>, e: Event, id: string)
    ensures UsesId(log + [e], id) <==> UsesId(log, id) || (e.Raised? && e.id == Some(id))
  {
    var grown := log + [e];
    assert forall i :: 0 <= i < |log| ==> grown[i] == log[i];
    assert grown[|log|] == e;
  }

  lemma {:induction false} DerivedIdsAreUsed(log: seq<Event>, id: string)
    ensures IndexOf(Derived(log), id).Some? <==> UsesId(log, id)
  {
    if log != [] {
      var init, e := log[..|log| - 1], log[|log| - 1];
      DerivedIdsAreUsed(init, id);
      FoldUses(Derived(init), e, id);
      UsesIdSnoc(init, e, id);
      assert log == init + [e];
    }
  }

  // --- Raising and resolving --------------------------------------------------------------------

  const ORACLE_ESCAPE := "oracle-escape"

  predicate KnownKind(kind: string) {
    kind in ["deviation", "debt", "blocker", "question", "note", ORACLE_ESCAPE]
  }

  predicate MayRaise(kind: string, summary: string, oracleChannel: bool) {
    (kind == ORACLE_ESCAPE ==> oracleChannel) && KnownKind(kind) && !Blank(summary)
  }

  /** Which kinds may be raised, which words resolve a flag, and which leave it open. */
  lemma RulesSay(kind: string, summary: string, f: Flag)
    ensures MayRaise(kind, summary, true) <==>
              kind in {"deviation", "debt", "blocker", "question", "note", "oracle-escape"} && exists c :: c in summary && !IsSpace(c)
    ensures MayRaise(kind, summary, false) <==> MayRaise(kind, summary, true) && kind != "oracle-escape"
    ensures Resolution(kind) <==> kind in {"resolved", "dismissed"}
    ensures IsOpen(f) <==> f.resolution in {None, Some(""), Some("open")}
  {
    if !Blank(summary) {
      var i :| 0 <= i < |summary| && !IsSpace(summary[i]);
      assert summary[i] in summary;
    }
  }

  /** An empty detail or note is not written. */
  function NonEmpty(text: Option<string>): Option<string> {
    if text == Some("") then None else text
  }

  datatype Refusal = OracleOnly | UnknownKind | EmptySummary | UnknownResolution | Colliding

  /** A raised flag is a fresh, open flag at the end; every flag already there is untouched. */
  lemma RaiseAddsOne(task: string, log: seq<Event>, e: Event)
    requires e.Raised? && e.id == Some(NextId(task, log))
    ensures Derived(log + [e]) == Derived(log) + [NewFlag(e)] && IsOpen(NewFlag(e))
  {
    NextIdIsFresh(task, log);
    DerivedIdsAreUsed(log, NextId(task, log));
    DerivedSnoc(log, e);
  }

  /** The same flag, and the very same once it has left open. */
  predicate Keeps(f: Flag, g: Flag) {
    g.(resolution := None, note := None, resolvedAt := 0) == f.(resolution := None, note := None, resolvedAt := 0) && (!IsOpen(f) ==> g == f)
  }

  lemma FoldKeeps(flags: seq<Flag>, e: Event, i: nat)
    requires i < |flags|
    ensures i < |Fold(flags, e)| && Keeps(flags[i], Fold(flags, e)[i])
  {
  }

  /** Whatever is appended later, a flag keeps its place, its id and its content, and once it has left
      open it never changes again. */
  lemma {:induction false} FlagsOnlyClose(log: seq<Event>, more: seq<Event>, i: nat)
    requires i < |Derived(log)|
    ensures i < |Derived(log + more)| && Keeps(Derived(log)[i], Derived(log + more)[i])
  {
    if more == [] {
      assert log + more == log;
    } else {
      var init := more[..|more| - 1];
      FlagsOnlyClose(log, init, i);
      assert log + more == (log + init) + [more[|more| - 1]];
      DerivedSnoc(log + init, more[|more| - 1]);
      FoldKeeps(Derived(log + init), more[|more| - 1], i);
    }
  }

  class TaskLog {
    const task: string
    var log: seq<Event>

    constructor (task: string, log: seq<Event>)
      ensures this.task == task && this.log == log
    {
      this.task, this.log := task, log;
    }

    /** Runs under the log lock. */
    method RaiseFlag(kind: string, summary: string, detail: Option<string>, needsDirector: bool, oracleChannel: bool, now: nat)
      returns (r: Result<string, Refusal>)
      modifies this`log
      ensures r.Success? <==> MayRaise(kind, summary, oracleChannel)
      ensures r.Failure? ==> log == old(log)
      ensures r.Success? ==> r.value == NextId(task, old(log)) && !UsesId(old(log), r.value) && |log| == |old(log)| + 1 && old(log) <= log &&
                             Derived(log) == Derived(old(log)) +
                               [Flag(r.value, kind, summary, NonEmpty(detail), needsDirector, now, None, None, 0)]
    {
      if kind == ORACLE_ESCAPE && !oracleChannel {
        return Failure(OracleOnly);
      }
      if !KnownKind(kind) {
        return Failure(UnknownKind);
      }
      if Blank(summary) {
        return Failure(EmptySummary);
      }
      var maxN := 0;
      for i := 0 to |log|
        invariant maxN == MaxNumber(log[..i])
      {
        assert log[..i + 1][..i] == log[..i];
        var existing := log[i];
        if existing.Raised? && existing.id.Some? {
          var n := NumberOf(existing.id.value);
          if n.Some? && n.value > maxN {
            maxN := n.value;
          }
        }
      }
      assert log[..|log|] == log;
      var id := MakeId(task, maxN + 1);
      NextIdIsFresh(task, log);
      if UsesId(log, id) {
        return Failure(Colliding);
      }
      var e := Raised(Some(id), kind, summary, NonEmpty(detail), needsDirector, now);
      RaiseAddsOne(task, log, e);
      log := log + [e];
      return Success(id);
    }

    /** True exactly when the id was open and closed now; nothing but that flag changes. */
    method ResolveFlag(id: string, resolution: string, note: Option<string>, oracleChannel: bool, now: nat)
      returns (r: Result<bool, Refusal>)
      modifies this`log
      ensures r == Success(true) ==> Settles(Derived(old(log)), Derived(log), id, resolution, NonEmpty(note), oracleChannel, now)
      ensures r != Success(true) ==> log == old(log)
      ensures r == Success(false) ==> !HasOpen(Derived(log), id)
      ensures r.Failure? && Resolution(resolution) ==>
                HasOpen(Derived(log), id) && Derived(log)[IndexOf(Derived(log), id).value].kind == ORACLE_ESCAPE && !oracleChannel
    {
      if !Resolution(resolution) {
        return Failure(UnknownResolution);
      }
      var flags := DeriveFlags(log);
      var at := IndexOf(flags, id);
      if at.None? || !IsOpen(flags[at.value]) {
        return Success(false);
      }
      if flags[at.value].kind == ORACLE_ESCAPE && !oracleChannel {
        return Failure(OracleOnly);
      }
      SettlingSettles(log, id, resolution, NonEmpty(note), oracleChannel, now);
      log := log + [Settled(Some(id), resolution, NonEmpty(note), now)];
      return Success(true);
    }
  }

  predicate Resolution(resolution: string) {
    resolution == "resolved" || resolution == "dismissed"
  }

  predicate HasOpen(flags: seq<Flag>, id: string) {
    IndexOf(flags, id).Some? && IsOpen(flags[IndexOf(flags, id).value])
  }

  /** The one flag with that id was open and is closed now, as told; an escape from the oracle only through its own channel; every
      other flag is as it was, and where it was. */
  predicate Settles(was: seq<Flag>, flags: seq<Flag>, id: string, resolution: string, note: Option<string>, oracleChannel: bool, now: nat) {
    HasOpen(was, id) && Resolution(resolution) &&
    var i := IndexOf(was, id).value;
    (was[i].kind == ORACLE_ESCAPE ==> oracleChannel) &&
    flags == was[i := was[i].(resolution := Some(resolution), note := note, resolvedAt := now)] && !IsOpen(flags[i])
  }

  lemma SettlingSettles(log: seq<Event>, id: string, resolution: string, note: Option<string>, oracleChannel: bool, now: nat)
    requires HasOpen(Derived(log), id) && Resolution(resolution)
    requires Derived(log)[IndexOf(Derived(log), id).value].kind == ORACLE_ESCAPE ==> oracleChannel
    ensures Settles(Derived(log), Derived(log + [Settled(Some(id), resolution, note, now)]), id, resolution, note, oracleChannel, now)
  {
    DerivedSnoc(log, Settled(Some(id), resolution, note, now));
  }

  // --- Concurrent raises under the log lock -----------------------------------------------------

  /** Raisers read the log and append to it in separate steps; `lock` is who is between the two, with
      the ids it computed from. Any writer may append events that raise nothing, lock or no lock. */
  datatype World = World(log: seq<Event>, lock: Option<nat>, seen: Option<seq<Event>>, raised: seq<Event>)

  datatype Step =
    | Lock(p: nat)
    | ReadLog(p: nat)
    | AppendFlag(p: nat, flag: Event)
    | Unlock(p: nat)
    | AppendOther(event: Event)
    | Crash

  predicate Enabled(task: string, w: World, s: Step) {
    match s
    case Lock(p) => w.lock.None?
    case ReadLog(p) => w.lock == Some(p) && w.seen.None?
    case AppendFlag(p, e) => w.lock == Some(p) && w.seen.Some? && e.Raised? && e.id == Some(NextId(task, w.seen.value))
    case Unlock(p) => w.lock == Some(p)
    case AppendOther(e) => !e.Raised?
    case Crash => true
  }

  function Next(task: string, w: World, s: Step): World
    requires Enabled(task, w, s)
  {
    match s
    case Lock(p) => w.(lock := Some(p), seen := None)
    case ReadLog(p) => w.(seen := Some(w.log))
    case AppendFlag(p, e) => w.(log := w.log + [e], seen := None, raised := w.raised + [e])
    case Unlock(p) => w.(lock := None, seen := None)
    case AppendOther(e) => w.(log := w.log + [e])
    case Crash => w.(lock := None, seen := None)
  }

  ghost predicate IsRun(task: string, worlds: seq<World>, steps: seq<Step>) {
    |worlds| == |steps| + 1 && worlds[0].lock.None? && worlds[0].seen.None? && worlds[0].raised == [] &&
    forall i :: 0 <= i < |steps| ==> Enabled(task, worlds[i], steps[i]) && worlds[i + 1] == Next(task, worlds[i], steps[i])
  }

  function Core(f: Flag): Flag {
    f.(resolution := None, note := None, resolvedAt := 0)
  }

  /** The fold of this log lists the flag this event raised, with this event's content. */
  predicate Listed(log: seq<Event>, e: Event) {
    e.Raised? && e.id.Some? && exists k :: 0 <= k < |Derived(log)| && Core(Derived(log)[k]) == NewFlag(e)
  }

  /** The locked reader's numbers are still the log's, and every raise is listed under its own id. */
  ghost predicate Consistent(w: World) {
    (w.seen.Some? ==> MaxNumber(w.seen.value) == MaxNumber(w.log)) &&
    (forall i :: 0 <= i < |w.raised| ==> Listed(w.log, w.raised[i])) &&
    (forall i, j :: 0 <= i < j < |w.raised| ==> w.raised[i].id != w.raised[j].id)
  }

  lemma ListedGrows(log: seq<Event>, e: Event, raised: Event)
    requires Listed(log, raised)
    ensures Listed(log + [e], raised) && UsesId(log, raised.id.value)
  {
    var k :| 0 <= k < |Derived(log)| && Core(Derived(log)[k]) == NewFlag(raised);
    FlagsOnlyClose(log, [e], k);
    assert Core(Derived(log + [e])[k]) == NewFlag(raised);
    DerivedIdsAreUsed(log, raised.id.value);
    assert Derived(log)[k].id == raised.id.value;
  }

  lemma StepKeeps(task: string, w: World, s: Step)
    requires Consistent(w) && Enabled(task, w, s)
    ensures Consistent(Next(task, w, s))
  {
    if s.AppendFlag? || s.AppendOther? {
      var t := Next(task, w, s);
      var e := if s.AppendFlag? then s.flag else s.event;
      assert (w.log + [e])[..|w.log|] == w.log;
      forall i | 0 <= i < |w.raised|
        ensures Listed(t.log, w.raised[i]) && UsesId(w.log, w.raised[i].id.value)
      {
        ListedGrows(w.log, e, w.raised[i]);
      }
      if s.AppendFlag? {
        NextIdIsFresh(task, w.log);
        RaiseAddsOne(task, w.log, e);
        assert Core(Derived(t.log)[|Derived(w.log)|]) == NewFlag(e);
      }
    }
  }

  /** Over every interleaving of raisers, other writers and crashes: no two raises share an id, and
      the fold lists every raise with its own content - none is lost to a duplicate. */
  lemma {:induction false} RaisesNeverCollide(task: string, worlds: seq<World>, steps: seq<Step>, i: nat)
    requires IsRun(task, worlds, steps) && i < |worlds|
    ensures Consistent(worlds[i])
  {
    if i > 0 {
      RaisesNeverCollide(task, worlds, steps, i - 1);
      StepKeeps(task, worlds[i - 1], steps[i - 1]);
    }
  }
}
