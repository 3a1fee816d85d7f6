/**
  Presence: the last state every client announced (internal/protocol/awareness.go).

  What is known of one client is a `Mark`; a later clock wins, and at equal clocks a removal
  wins.  Times are numbers, and a payload is the sequence of reports it decodes to.
*/
module Presence {
  import opened Ids

  /** A client's clock and state; `None` after a removal. */
  datatype Mark = Mark(clock: nat, state: Option<string>)

  const BOTTOM := Mark(0, None)
  const MAX_SAFE_INTEGER: nat := 0x1F_FFFF_FFFF_FFFF
  const FORGET_AFTER: int := 600

  predicate Leq(a: Mark, b: Mark) {
    a.clock < b.clock || (a.clock == b.clock && (b.state.None? || a.state.Some?))
  }

  /** The acceptance rule: what is held after `b` is received when `a` was held. */
  function Join(a: Mark, b: Mark): Mark {
    if a.clock < b.clock || (a.clock == b.clock && b.state.None? && a.state.Some?) then b else a
  }

  /** A client has at most one state per clock. */
  ghost predicate OneState(s: set<Mark>) {
    forall a, b | a in s && b in s && a.clock == b.clock && a.state.Some? && b.state.Some? :: a == b
  }

  /** `m` is the greatest of the marks, or nothing if there are none above that. */
  ghost predicate Greatest(s: set<Mark>, m: Mark) {
    (m in s || m == BOTTOM) && Leq(BOTTOM, m) && forall a <- s :: Leq(a, m)
  }

  lemma JoinIsGreatest(s: set<Mark>, m: Mark, b: Mark)
    requires Greatest(s, m)
    ensures Greatest(s + {b}, Join(m, b))
  {
    forall a <- s + {b}
      ensures Leq(a, Join(m, b))
    {
      if a in s { assert Leq(a, m); }
    }
  }

  /** There is one greatest mark: whoever has heard the same marks, in whatever order and however
      often, holds the same one. */
  lemma GreatestIsUnique(s: set<Mark>, m: Mark, n: Mark)
    requires OneState(s) && Greatest(s, m) && Greatest(s, n)
    ensures m == n
  {
    assert m in s ==> Leq(m, n);
    assert n in s ==> Leq(n, m);
  }

  /** The acceptance rule is a join: idempotent, and commutative and associative where a client
      has one state per clock. */
  lemma JoinLaws(a: Mark, b: Mark, c: Mark)
    requires OneState({a, b, c})
    ensures Join(a, a) == a
    ensures Join(a, b) == Join(b, a)
    ensures Join(Join(a, b), c) == Join(a, Join(b, c))
    ensures Leq(a, Join(a, b)) && Leq(b, Join(a, b))
  {
    assert a in {a, b, c} && b in {a, b, c} && c in {a, b, c};
  }

  // ---------------------------------------------------------------- the tracker

  datatype Entry = Entry(clock: nat, state: string, present: bool, lastUpdated: int)

  datatype Report = Report(client: nat, clock: nat, state: Option<string>)

  datatype Fault = OutOfRange | StateTooLarge | TooManyClients | Malformed

  function MarkOf(entries: map<nat, Entry>, c: nat): Mark {
    if c in entries then Mark(entries[c].clock, if entries[c].present then Some(entries[c].state) else None) else BOTTOM
  }

  function PresentIn(entries: map<nat, Entry>): set<nat> {
    set c | c in entries && entries[c].present
  }

  function HeardOf(heard: map<nat, set<Mark>>, c: nat): set<Mark> {
    if c in heard then heard[c] else {}
  }

  ghost function Hears(heard: map<nat, set<Mark>>, c: nat, m: Mark): map<nat, set<Mark>> {
    heard[c := HeardOf(heard, c) + {m}]
  }

  /** Every client's entry is the greatest of what has been heard since it was last forgotten. */
  ghost predicate Tracks(entries: map<nat, Entry>, heard: map<nat, set<Mark>>) {
    forall c {:trigger MarkOf(entries, c)} :: Greatest(HeardOf(heard, c), MarkOf(entries, c))
  }

  lemma PresentAdds(entries: map<nat, Entry>, c: nat, e: Entry)
    ensures |PresentIn(entries[c := e])| ==
              |PresentIn(entries)| - (if c in PresentIn(entries) then 1 else 0) + (if e.present then 1 else 0)
    ensures |entries[c := e]| == |entries| + (if c in entries then 0 else 1)
  {
    hide PresentIn;
    CardMap(entries);
    CardMap(entries[c := e]);
    assert entries[c := e].Keys == entries.Keys + {c};
    PresentSet(entries, c, e);
    var rest := PresentIn(entries) - {c};
    assert |rest| == |PresentIn(entries)| - (if c in PresentIn(entries) then 1 else 0);
  }

  lemma PresentSet(entries: map<nat, Entry>, c: nat, e: Entry)
    ensures PresentIn(entries[c := e]) == PresentIn(entries) - {c} + (if e.present then {c} else {})
  {
  }

  lemma CardMap(m: map<nat, Entry>)
    ensures |m| == |m.Keys|
  {
  }

  /** Dropping an entry that holds no state. */
  lemma PresentDrops(entries: map<nat, Entry>, c: nat)
    requires c in entries && !entries[c].present
    ensures PresentIn(entries - {c}) == PresentIn(entries) && |entries - {c}| == |entries| - 1
  {
    assert (entries - {c}).Keys == entries.Keys - {c};
    CardMap(entries);
    CardMap(entries - {c});
  }

  /** Forgetting a client keeps the rest. */
  lemma TracksDrops(entries: map<nat, Entry>, heard: map<nat, set<Mark>>, c: nat)
    requires Tracks(entries, heard)
    ensures Tracks(entries - {c}, heard[c := {}])
  {
    forall d
      ensures Greatest(HeardOf(heard[c := {}], d), MarkOf(entries - {c}, d))
    {
      if d != c { assert MarkOf(entries - {c}, d) == MarkOf(entries, d); }
    }
  }

  lemma TracksHears(entries: map<nat, Entry>, entries': map<nat, Entry>, heard: map<nat, set<Mark>>, c: nat, m: Mark)
    requires Tracks(entries, heard) && MarkOf(entries', c) == Join(MarkOf(entries, c), m)
    requires forall d | d != c :: MarkOf(entries', d) == MarkOf(entries, d)
    ensures Tracks(entries', Hears(heard, c, m))
  {
    hide MarkOf;
    forall d
      ensures Greatest(HeardOf(Hears(heard, c, m), d), MarkOf(entries', d))
    {
      assert Greatest(HeardOf(heard, d), MarkOf(entries, d));
      if d == c { JoinIsGreatest(HeardOf(heard, c), MarkOf(entries, c), m); }
    }
  }

  /** Entries without state are dropped, and none that is more recent than one that stays. */
  ghost predicate Forgets(entries: map<nat, Entry>, entries': map<nat, Entry>) {
    && (forall c <- entries' :: c in entries && entries'[c] == entries[c])
    && (forall c <- entries | c !in entries' :: !entries[c].present)
    && (forall c, d | c in entries && c !in entries' && d in entries' && !entries'[d].present ::
          entries[c].lastUpdated <= entries'[d].lastUpdated)
  }

  lemma ForgetsNothing(entries: map<nat, Entry>)
    ensures Forgets(entries, entries)
  {
  }

  lemma ForgetsMore(entries: map<nat, Entry>, entries': map<nat, Entry>, c: nat)
    requires Forgets(entries, entries') && c in entries' && !entries'[c].present
    requires forall d <- entries' | !entries'[d].present :: entries'[c].lastUpdated <= entries'[d].lastUpdated
    ensures Forgets(entries, entries' - {c}) && c in entries
  {
  }

  lemma AllPresent(entries: map<nat, Entry>)
    requires forall c <- entries :: entries[c].present
    ensures |PresentIn(entries)| == |entries|
  {
    assert PresentIn(entries) == entries.Keys;
    CardMap(entries);
  }

  /** What has been heard of everyone who was not forgotten. */
  ghost predicate HeardExcept(heard: map<nat, set<Mark>>, heard': map<nat, set<Mark>>, gone: set<nat>) {
    forall c {:trigger HeardOf(heard', c)} :: HeardOf(heard', c) == if c in gone then {} else HeardOf(heard, c)
  }

  lemma HeardAll(heard: map<nat, set<Mark>>, gone: set<nat>)
    requires gone == {}
    ensures HeardExcept(heard, heard, gone)
  {
  }

  lemma HeardExceptHears(heard: map<nat, set<Mark>>, heard': map<nat, set<Mark>>, gone: set<nat>, c: nat, m: Mark)
    requires HeardExcept(heard, heard', gone) && c !in gone
    ensures HeardExcept(Hears(heard, c, m), Hears(heard', c, m), gone)
  {
    forall d
      ensures HeardOf(Hears(heard', c, m), d) == if d in gone then {} else HeardOf(Hears(heard, c, m), d)
    {
      assert HeardOf(heard', d) == if d in gone then {} else HeardOf(heard, d);
    }
  }

  /** Storing a client that was not forgotten changes nothing about who was. */
  lemma KeysAfter(entries: map<nat, Entry>, entries1: map<nat, Entry>, entries2: map<nat, Entry>, c: nat)
    requires entries2 - {c} == entries1 - {c} && c in entries2 && (c in entries ==> c in entries1)
    ensures entries.Keys - entries2.Keys == entries.Keys - entries1.Keys
  {
    forall d | d != c
      ensures d in entries2 <==> d in entries1
    {
      assert d in entries2 - {c} <==> d in entries2;
      assert d in entries1 - {c} <==> d in entries1;
    }
  }

  lemma HeardExceptMore(heard: map<nat, set<Mark>>, heard': map<nat, set<Mark>>, gone: set<nat>, c: nat)
    requires HeardExcept(heard, heard', gone)
    ensures HeardExcept(heard, heard'[c := {}], gone + {c})
  {
    forall d
      ensures HeardOf(heard'[c := {}], d) == if d in gone + {c} then {} else HeardOf(heard, d)
    {
      assert HeardOf(heard', d) == if d in gone then {} else HeardOf(heard, d);
    }
  }

  /** What one accepted or ignored report does: the mark held is the join of the old one and the
      report's, and nothing happens if that is the old one.  Only a client that was not known, where
      there are twice as many entries as there may be clients, has another one forgotten. */
  ghost predicate Heeds(e: map<nat, Entry>, e': map<nat, Entry>, r: Report, now: int, accepted: bool, maxClients: int) {
    && MarkOf(e', r.client) == Join(MarkOf(e, r.client), Mark(r.clock, r.state))
    && (accepted <==> MarkOf(e', r.client) != MarkOf(e, r.client))
    && (!accepted ==> e' == e)
    && (accepted ==>
          && r.client in e' && e'[r.client].lastUpdated == now
          && if maxClients <= 0 || r.client in e || |e| < 2 * maxClients then e' - {r.client} == e - {r.client}
             else Forgets(e - {r.client}, e' - {r.client}) && |e'| == 2 * maxClients)
  }

  /** What a run of reports does, and the clients it is reported to have changed. */
  ghost predicate HeedsAll(e: map<nat, Entry>, e': map<nat, Entry>, rs: seq<Report>, now: int, changed: seq<nat>,
                           maxClients: int)
    decreases |rs|
  {
    if rs == [] then e' == e && changed == []
    else
      var r := rs[|rs| - 1];
      exists mid, front, accepted ::
        && HeedsAll(e, mid, rs[..|rs| - 1], now, front, maxClients) && Heeds(mid, e', r, now, accepted, maxClients)
        && changed == Noted(front, r.client, accepted)
  }

  function Noted(changed: seq<nat>, c: nat, accepted: bool): seq<nat> {
    if accepted then changed + [c] else changed
  }

  lemma HeedsMore(e: map<nat, Entry>, mid: map<nat, Entry>, e': map<nat, Entry>, rs: seq<Report>, i: nat, now: int,
                  front: seq<nat>,
                  accepted: bool, maxClients: int)
    requires i < |rs| && HeedsAll(e, mid, rs[..i], now, front, maxClients)
    requires Heeds(mid, e', rs[i], now, accepted, maxClients)
    ensures HeedsAll(e, e', rs[..i + 1], now, Noted(front, rs[i].client, accepted), maxClients)
  {
    hide Heeds;
    var t := rs[..i + 1];
    assert t != [] && t[..|t| - 1] == rs[..i] && t[|t| - 1] == rs[i];
    assert HeedsAll(e, mid, t[..|t| - 1], now, front, maxClients) &&
        Heeds(mid, e', t[|t| - 1], now, accepted, maxClients);
  }

  class Awareness {
    var entries: map<nat, Entry>
    var present: int
    const maxState: int
    const maxClients: int
    ghost var heard: map<nat, set<Mark>>

    /** The counter counts, the limits hold, and every entry is the join of what was heard. */
    ghost predicate Valid()
      reads this
    {
      && present == |PresentIn(entries)|
      && (maxClients > 0 ==> present <= maxClients && |entries| <= 2 * maxClients)
      && Tracks(entries, heard)
    }

    /** Limits of zero mean the default, negative ones no limit. */
    constructor (maxState: int, maxClients: int)
      ensures Valid() && entries == map[] && heard == map[]
      ensures this.maxState == (if maxState == 0 then 4096 else maxState)
      ensures this.maxClients == (if maxClients == 0 then 1024 else maxClients)
    {
      this.maxState := if maxState == 0 then 4096 else maxState;
      this.maxClients := if maxClients == 0 then 1024 else maxClients;
      entries, present, heard := map[], 0, map[];
    }

    /** The removed entry that has been silent longest. */
    method Oldest() returns (found: bool, oldest: nat)
      ensures found <==> exists c :: c in entries && !entries[c].present
      ensures found ==> oldest in entries && !entries[oldest].present
      ensures found ==> forall c <- entries | !entries[c].present ::
              entries[oldest].lastUpdated <= entries[c].lastUpdated
    {
      found, oldest := false, 0;
      var todo := entries.Keys;
      while todo != {}
        invariant todo <= entries.Keys
        invariant found <==> exists c :: c in entries && c !in todo && !entries[c].present
        invariant found ==> oldest in entries && !entries[oldest].present
        invariant found ==> forall c <- entries | c !in todo && !entries[c].present ::
                  entries[oldest].lastUpdated <= entries[c].lastUpdated
      {
        var id :| id in todo;
        if !entries[id].present && (!found || entries[id].lastUpdated < entries[oldest].lastUpdated) {
          oldest, found := id, true;
        }
        todo := todo - {id};
      }
    }

    /** `forgetOldest`: drop removed entries, oldest first, until the map is under the limit.
        With fewer present clients than the limit there is always one to drop. */
    method ForgetOldest(limit: nat)
      requires Valid() && present < limit
      modifies this`entries, this`heard
      ensures Valid() && Forgets(old(entries), entries)
      ensures if |old(entries)| < limit then entries == old(entries) else |entries| == limit - 1
      ensures HeardExcept(old(heard), heard, old(entries.Keys) - entries.Keys)
    {
      hide Tracks, Forgets, PresentIn;
      ForgetsNothing(entries);
      while |entries| >= limit
        invariant Valid() && present < limit && Forgets(old(entries), entries)
        invariant entries == old(entries) || (|old(entries)| >= limit && |entries| >= limit - 1)
        invariant HeardExcept(old(heard), heard, old(entries.Keys) - entries.Keys)
        decreases |entries|
      {
        var found, oldest := Oldest();
        if !found {
          AllPresent(entries);
          return;
        }
        PresentDrops(entries, oldest);
        TracksDrops(entries, heard, oldest);
        ForgetsMore(old(entries), entries, oldest);
        HeardExceptMore(old(heard), heard, old(entries.Keys) - entries.Keys, oldest);
        assert old(entries.Keys) - (entries - {oldest}).Keys == old(entries.Keys) - entries.Keys + {oldest};
        entries := entries - {oldest};
        heard := heard[oldest := {}];
      }
    }

    /** Why a report is refused, if it is.  A removal is never refused for a limit. */
    function Refusal(r: Report): Option<Fault>
      reads this
    {
      if r.client > MAX_SAFE_INTEGER || r.clock > MAX_SAFE_INTEGER then Some(OutOfRange)
      else if r.state.Some? && maxState > 0 && |r.state.value| > maxState then Some(StateTooLarge)
      else if r.state.Some? && maxClients > 0 && r.client !in PresentIn(entries) &&
        present >= maxClients then Some(TooManyClients)
      else None
    }

    /** Exactly when a report is refused, and why: a number is out of range; its state is too large; or it
        would make one client too many present. */
    lemma RefusedExactly(r: Report)
      ensures Refusal(r) == Some(OutOfRange) <==> r.client > 0x1F_FFFF_FFFF_FFFF || r.clock > 0x1F_FFFF_FFFF_FFFF
      ensures Refusal(r) == Some(StateTooLarge) <==>
                && r.client <= 0x1F_FFFF_FFFF_FFFF && r.clock <= 0x1F_FFFF_FFFF_FFFF
                && r.state.Some? && 0 < maxState < |r.state.value|
      ensures Refusal(r) == None <==>
                && r.client <= 0x1F_FFFF_FFFF_FFFF && r.clock <= 0x1F_FFFF_FFFF_FFFF
                && (r.state.Some? ==>
                      && (maxState <= 0 || |r.state.value| <= maxState)
                      && (maxClients <= 0 || present < maxClients ||
                          (r.client in entries && entries[r.client].present)))
      ensures Refusal(r) != Some(Malformed)
    {
    }

    /** One report of a payload: refused without effect, or joined to what is held.  A client
        that was not known may push the longest-silent removed ones out. */
    method Hear(r: Report, now: int) returns (fault: Option<Fault>, accepted: bool)
      requires Valid()
      modifies this`entries, this`present, this`heard
      ensures Valid() && fault == old(Refusal(r))
      ensures fault == None <==>
                && r.client <= 0x1F_FFFF_FFFF_FFFF && r.clock <= 0x1F_FFFF_FFFF_FFFF
                && (r.state.Some? ==>
                      && (maxState <= 0 || |r.state.value| <= maxState)
                      && (maxClients <= 0 || old(present) < maxClients ||
                          (r.client in old(entries) && old(entries)[r.client].present)))
      ensures fault.Some? ==> entries == old(entries) && heard == old(heard) && !accepted
      ensures fault == None ==>
                var known := r.client in old(entries);
                var clock := if known then old(entries)[r.client].clock else 0;
                var present := known && old(entries)[r.client].present;
                && (accepted <==> r.clock > clock || (r.clock == clock && r.state == None && present))
                && (accepted ==>
                      && r.client in entries && entries[r.client].clock == r.clock
                      && entries[r.client].present == r.state.Some?
                      && (r.state.Some? ==> entries[r.client].state == r.state.value))
      ensures fault == None ==>
                && Heeds(old(entries), entries, r, now, accepted, maxClients)
                && (maxClients <= 0 ==> old(entries.Keys) <= entries.Keys)
                && HeardExcept(Hears(old(heard), r.client, Mark(r.clock, r.state)), heard,
                  old(entries.Keys) - entries.Keys)
    {
      hide Tracks, PresentIn, Forgets, HeardExcept, Hears;
      fault, accepted := None, false;
      RefusedExactly(r);
      ghost var m := Mark(r.clock, r.state);
      if r.client > MAX_SAFE_INTEGER || r.clock > MAX_SAFE_INTEGER {
        return Some(OutOfRange), false;
      }
      var known := r.client in entries;
      var e := if known then entries[r.client] else Entry(0, "", false, 0);
      PresentMember(entries, r.client);
      if r.state.Some? {
        if maxState > 0 && |r.state.value| > maxState {
          return Some(StateTooLarge), false;
        }
        if maxClients > 0 && (!known || !e.present) && present >= maxClients {
          return Some(TooManyClients), false;
        }
      }
      if !(e.clock < r.clock || (e.clock == r.clock && r.state.None? && e.present)) {
        TracksHears(entries, entries, heard, r.client, m);
        heard := Hears(heard, r.client, m);
        HeardAll(heard, old(entries.Keys) - entries.Keys);
        return;
      }
      ForgetsNothing(entries - {r.client});
      HeardAll(heard, old(entries.Keys) - entries.Keys);
      if !known && maxClients > 0 {
        ForgetOldest(2 * maxClients);
        ForgetsOthers(old(entries), entries, r.client);
      }
      HeardExceptHears(old(heard), heard, old(entries.Keys) - entries.Keys, r.client, m);
      ghost var entries1 := entries;
      Keep(r, now);
      KeysAfter(old(entries), entries1, entries, r.client);
      return None, true;
    }

    /** Store an accepted report. */
    method Keep(r: Report, now: int)
      requires present == |PresentIn(entries)| && Tracks(entries, heard)
      requires Join(MarkOf(entries, r.client), Mark(r.clock, r.state)) == Mark(r.clock, r.state)
      modifies this`entries, this`present, this`heard
      ensures present == |PresentIn(entries)| && Tracks(entries, heard)
      ensures present == old(present) -
                (if r.client in old(PresentIn(entries)) then 1 else 0) + (if r.state.Some? then 1 else 0)
      ensures |entries| == |old(entries)| + (if r.client in old(entries) then 0 else 1)
      ensures MarkOf(entries, r.client) == Mark(r.clock, r.state) && r.client in entries
      ensures entries[r.client].lastUpdated == now
      ensures entries ==
              old(entries)[r.client := Entry(r.clock, if r.state.Some? then r.state.value else "", r.state.Some?, now)]
      ensures entries - {r.client} == old(entries) - {r.client}
      ensures heard == Hears(old(heard), r.client, Mark(r.clock, r.state))
    {
      hide Tracks, PresentIn, Hears;
      PresentMember(entries, r.client);
      var was := r.client in entries && entries[r.client].present;
      var e := Entry(r.clock, if r.state.Some? then r.state.value else "", r.state.Some?, now);
      PresentAdds(entries, r.client, e);
      TracksHears(entries, entries[r.client := e], heard, r.client, Mark(r.clock, r.state));
      if was != r.state.Some? {
        present := if r.state.Some? then present + 1 else present - 1;
      }
      OthersStay(entries, r.client, e);
      entries := entries[r.client := e];
      heard := Hears(heard, r.client, Mark(r.clock, r.state));
    }

    /** `ApplyUpdate`: the reports of a payload one after the other, up to the first that is
        refused; `intact` says whether the rest of the payload decodes.  `n` reports were heard. */
    method Apply(reports: seq<Report>, intact: bool, now: int)
                 returns (changed: seq<nat>, fault: Option<Fault>, ghost n: nat)
      requires Valid()
      modifies this`entries, this`present, this`heard
      ensures Valid() && n <= |reports| && HeedsAll(old(entries), entries, reports[..n], now, changed, maxClients)
      ensures if n < |reports| then fault == Refusal(reports[n]) && fault.Some?
              else fault == if intact then None else Some(Malformed)
      ensures maxClients <= 0 ==>
                forall c {:trigger HeardOf(heard, c)} ::
                    HeardOf(heard, c) == HeardOf(old(heard), c) + MarksFor(reports[..n], c)
      ensures forall c <- changed :: exists r <- reports :: r.client == c
      ensures maxClients <= 0 ==> changed == Changes(old(entries), reports[..n]) && forall c ::
              MarkOf(entries, c) == MarkAfter(old(entries), reports[..n], c)
    {
      hide Tracks, PresentIn, HeardExcept, Forgets, Hears;
      changed, n := [], 0;
      MarksForNothing(heard);
      NothingChanges(entries);
      for i := 0 to |reports|
        invariant Valid() && n == i && HeedsAll(old(entries), entries, reports[..i], now, changed, maxClients)
        invariant maxClients <= 0 ==>
                    forall c {:trigger HeardOf(heard, c)} ::
                        HeardOf(heard, c) == HeardOf(old(heard), c) + MarksFor(reports[..i], c)
        invariant forall c <- changed :: exists r <- reports :: r.client == c
        invariant maxClients <= 0 ==> changed == Changes(old(entries), reports[..i]) && forall c ::
                  MarkOf(entries, c) == MarkAfter(old(entries), reports[..i], c)
      {
        ghost var was, keys, before := heard, entries.Keys, entries;
        var refused, accepted := Hear(reports[i], now);
        if refused.Some? {
          return changed, refused, i;
        }
        HeedsMore(old(entries), before, entries, reports, i, now, changed, accepted, maxClients);
        if accepted {
          assert reports[i] in reports;
          changed := changed + [reports[i].client];
        }
        if maxClients <= 0 {
          assert keys - entries.Keys == {};
          MarksForMore(old(heard), was, heard, reports, i);
          ChangesMore(old(entries), before, entries, reports, i, accepted);
        }
        n := i + 1;
      }
      assert reports[..|reports|] == reports;
      fault := if intact then None else Some(Malformed);
    }

    /** `Encode`: what is held of the given clients, removals included. */
    method Encode(clients: seq<nat>) returns (payload: seq<Report>)
      ensures |payload| == |clients|
      ensures forall i | 0 <= i < |clients| ::
                payload[i] == Report(clients[i], MarkOf(entries, clients[i]).clock, MarkOf(entries, clients[i]).state)
      ensures forall i | 0 <= i < |clients| && clients[i] in entries ::
                var e := entries[clients[i]];
                payload[i] == Report(clients[i], e.clock, if e.present then Some(e.state) else None)
      ensures forall i | 0 <= i < |clients| && clients[i] !in entries :: payload[i] == Report(clients[i], 0, None)
    {
      payload := [];
      for i := 0 to |clients|
        invariant |payload| == i
        invariant forall j | 0 <= j < i ::
                    payload[j] == Report(clients[j], MarkOf(entries, clients[j]).clock,
                      MarkOf(entries, clients[j]).state)
      {
        var e := if clients[i] in entries then entries[clients[i]] else Entry(0, "", false, 0);
        payload := payload + [Report(clients[i], e.clock, if e.present then Some(e.state) else None)];
      }
    }

    /** `remove`: the clients' states go, their clocks stay; the announcement says so. */
    method Remove(clients: seq<nat>, now: int) returns (payload: seq<Report>)
      requires Valid() && forall c <- clients :: c in entries
      modifies this`entries, this`present, this`heard
      ensures Valid() && Cleared(old(entries), entries, clients, now)
      ensures HeardCleared(old(entries), old(heard), heard, clients)
      ensures |payload| == |clients|
      ensures forall i | 0 <= i < |clients| ::
              payload[i] == Report(clients[i], MarkOf(old(entries), clients[i]).clock, None)
    {
      hide Tracks, PresentIn, Cleared, HeardCleared, Hears;
      ClearedNothing(entries, heard, now);
      for i := 0 to |clients|
        invariant Valid() && Cleared(old(entries), entries, clients[..i], now)
        invariant HeardCleared(old(entries), old(heard), heard, clients[..i])
      {
        ClearedMore(old(entries), entries, old(heard), heard, clients, i, now);
        Keep(Report(clients[i], entries[clients[i]].clock, None), now);
      }
      assert clients[..|clients|] == clients;
      payload := Encode(clients);
      ClearedMarks(old(entries), entries, clients, now);
    }

    /** `RemoveClients`: those of the clients that have a state are removed. */
    method RemoveClients(clients: seq<nat>, now: int) returns (gone: seq<nat>, payload: seq<Report>)
      requires Valid()
      modifies this`entries, this`present, this`heard
      ensures Valid() && Cleared(old(entries), entries, gone, now)
      ensures forall c :: c in gone <==> c in clients && c in old(entries) && old(entries)[c].present
      ensures |payload| == |gone|
      ensures forall i | 0 <= i < |gone| :: payload[i] == Report(gone[i], MarkOf(old(entries), gone[i]).clock, None)
    {
      hide Tracks, PresentIn, Cleared;
      gone := [];
      for i := 0 to |clients|
        invariant forall c :: c in gone <==> c in clients[..i] && c in entries && entries[c].present
        invariant Valid() && entries == old(entries)
      {
        assert clients[..i + 1] == clients[..i] + [clients[i]];
        if clients[i] in entries && entries[clients[i]].present {
          gone := gone + [clients[i]];
        }
      }
      assert clients[..|clients|] == clients;
      if gone == [] {
        ClearedNothing(entries, heard, now);
        return gone, [];
      }
      payload := Remove(gone, now);
    }

    /** `Sweep`: clients not heard from within `ttl` are removed and listed in ascending order, and
        removed ones are forgotten once nothing in flight can refer to them. */
    method Sweep(now: int, ttl: int) returns (stale: seq<nat>, payload: seq<Report>)
      requires Valid()
      modifies this`entries, this`present, this`heard
      ensures Valid()
      ensures forall c :: c in stale <==>
                c in old(entries) && old(entries)[c].present && now - old(entries)[c].lastUpdated >= ttl
      ensures forall i, j | 0 <= i < j < |stale| :: stale[i] < stale[j]
      ensures forall c <- old(entries) ::
                var e := old(entries)[c];
                if c in stale then c in entries && entries[c] == Entry(e.clock, "", false, now)
                else if !e.present && now - e.lastUpdated >= FORGET_AFTER then c !in entries
                else c in entries && entries[c] == e
      ensures entries.Keys <= old(entries.Keys)
      ensures |payload| == |stale|
      ensures forall i | 0 <= i < |stale| :: payload[i] == Report(stale[i], MarkOf(old(entries), stale[i]).clock, None)
    {
      hide Tracks, PresentIn, Rising;
      stale := [];
      var todo := entries.Keys;
      RisesNot(todo);
      while todo != {}
        invariant todo <= entries.Keys <= old(entries.Keys) && Valid()
        invariant forall c :: c in stale <==>
                    c in old(entries) && c !in todo && old(entries)[c].present &&
                    now - old(entries)[c].lastUpdated >= ttl
        invariant forall c <- stale :: c in entries
        invariant Rising(stale, todo)
        invariant forall c <- entries :: entries[c] == old(entries)[c]
        invariant forall c <- old(entries) | c !in entries ::
                  !old(entries)[c].present && now - old(entries)[c].lastUpdated >= FORGET_AFTER
        invariant forall c <- entries | c !in todo && !entries[c].present :: now - entries[c].lastUpdated < FORGET_AFTER
      {
        ghost var first := Smallest(todo);
        var id :| id in todo && forall c <- todo :: id <= c;
        RisesOn(stale, todo, id);
        if entries[id].present {
          if now - entries[id].lastUpdated >= ttl {
            stale := stale + [id];
          }
        } else if now - entries[id].lastUpdated >= FORGET_AFTER {
          PresentDrops(entries, id);
          TracksDrops(entries, heard, id);
          entries := entries - {id};
          heard := heard[id := {}];
        }
        todo := todo - {id};
      }
      Risen(stale);
      if stale == [] {
        return stale, [];
      }
      payload := Remove(stale, now);
    }
  }

  /** Replicas that have heard the same of a client hold the same of it. */
  lemma PresenceConverges(a: Awareness, b: Awareness, c: nat)
    requires a.Valid() && b.Valid() && HeardOf(a.heard, c) == HeardOf(b.heard, c) && OneState(HeardOf(a.heard, c))
    ensures MarkOf(a.entries, c) == MarkOf(b.entries, c)
  {
    GreatestIsUnique(HeardOf(a.heard, c), MarkOf(a.entries, c), MarkOf(b.entries, c));
  }

  /** What one replica encodes and another applies is joined to what that one holds. */
  method Relay(a: Awareness, b: Awareness, c: nat, now: int) returns (fault: Option<Fault>)
    requires a.Valid() && b.Valid() && a != b
    modifies b`entries, b`present, b`heard
    ensures a.Valid() && b.Valid()
    ensures fault == None ==> MarkOf(b.entries, c) == Join(MarkOf(old(b.entries), c), MarkOf(a.entries, c))
    ensures var m := MarkOf(a.entries, c);
            m.state == None && c <= MAX_SAFE_INTEGER && m.clock <= MAX_SAFE_INTEGER ==> fault == None
  {
    hide Tracks, PresentIn, HeardExcept, Forgets, Hears;
    var payload := a.Encode([c]);
    var accepted;
    fault, accepted := b.Hear(payload[0], now);
  }

  /** The clients' states are gone; their clocks and everyone else's entries are as before. */
  ghost predicate Cleared(entries: map<nat, Entry>, entries': map<nat, Entry>, clients: seq<nat>, now: int) {
    && entries'.Keys == entries.Keys
    && forall c <- entries :: entries'[c] == if c in clients then Entry(entries[c].clock, "", false, now)
      else entries[c]
  }

  ghost predicate HeardCleared(entries: map<nat, Entry>, heard: map<nat, set<Mark>>, heard': map<nat, set<Mark>>,
                               clients: seq<nat>) {
    forall c {:trigger HeardOf(heard', c)} ::
      HeardOf(heard', c) == HeardOf(heard, c) + (if c in clients then {Mark(MarkOf(entries, c).clock, None)} else {})
  }

  lemma ClearedNothing(entries: map<nat, Entry>, heard: map<nat, set<Mark>>, now: int)
    ensures Cleared(entries, entries, [], now) && HeardCleared(entries, heard, heard, [])
  {
  }

  lemma ClearedMore(entries: map<nat, Entry>, entries': map<nat, Entry>, heard: map<nat, set<Mark>>, heard': map<nat,
                    set<Mark>>,
                    clients: seq<nat>, i: nat, now: int)
    requires i < |clients| && clients[i] in entries
    requires Cleared(entries, entries', clients[..i], now) && HeardCleared(entries, heard, heard', clients[..i])
    ensures clients[i] in entries' && entries'[clients[i]].clock == entries[clients[i]].clock
    ensures var c, e := clients[i], entries'[clients[i]];
            && Cleared(entries, entries'[c := Entry(e.clock, "", false, now)], clients[..i + 1], now)
            && HeardCleared(entries, heard, Hears(heard', c, Mark(e.clock, None)), clients[..i + 1])
  {
    var c, e := clients[i], entries'[clients[i]];
    assert clients[..i + 1] == clients[..i] + [c];
    forall d
      ensures HeardOf(Hears(heard', c, Mark(e.clock, None)), d) ==
                HeardOf(heard, d) + (if d in clients[..i + 1] then {Mark(MarkOf(entries, d).clock, None)} else {})
    {
      assert HeardOf(heard', d) == HeardOf(heard, d) + (if d in clients[..i] then {Mark(MarkOf(entries, d).clock, None)}
          else {});
    }
  }

  lemma ClearedMarks(entries: map<nat, Entry>, entries': map<nat, Entry>, clients: seq<nat>, now: int)
    requires Cleared(entries, entries', clients, now) && forall c <- clients :: c in entries
    ensures forall c <- clients :: MarkOf(entries', c) == Mark(MarkOf(entries, c).clock, None)
  {
  }

  /** In ascending order, and below what is still to come. */
  ghost predicate Rising(ids: seq<nat>, todo: set<nat>) {
    && (forall i, j | 0 <= i < j < |ids| :: ids[i] < ids[j])
    && (forall i, c | 0 <= i < |ids| && c in todo :: ids[i] < c)
  }

  lemma RisesNot(todo: set<nat>)
    ensures Rising([], todo)
  {
  }

  lemma RisesOn(ids: seq<nat>, todo: set<nat>, c: nat)
    requires Rising(ids, todo) && c in todo && forall d <- todo :: c <= d
    ensures Rising(ids, todo - {c}) && Rising(ids + [c], todo - {c})
  {
  }

  lemma Risen(ids: seq<nat>)
    requires Rising(ids, {})
    ensures forall i, j | 0 <= i < j < |ids| :: ids[i] < ids[j]
  {
  }

  /** What is held of a client after some reports. */
  function MarkAfter(entries: map<nat, Entry>, reports: seq<Report>, c: nat): Mark {
    if reports == [] then MarkOf(entries, c)
    else
      var n := |reports| - 1;
      var m := MarkAfter(entries, reports[..n], c);
      if reports[n].client == c then Join(m, Mark(reports[n].clock, reports[n].state)) else m
  }

  /** The clients whose mark moves, in the order of the reports that move it. */
  function Changes(entries: map<nat, Entry>, reports: seq<Report>): seq<nat> {
    if reports == [] then []
    else
      var n := |reports| - 1;
      var c := reports[n].client;
      Changes(entries, reports[..n]) + (if MarkAfter(entries, reports, c) != MarkAfter(entries, reports[..n], c) then
        [c] else [])
  }

  lemma NothingChanges(entries: map<nat, Entry>)
    ensures Changes(entries, []) == [] && forall c :: MarkAfter(entries, [], c) == MarkOf(entries, c)
  {
  }

  lemma ChangesMore(first: map<nat, Entry>, entries: map<nat, Entry>, entries': map<nat, Entry>, reports: seq<Report>,
                    i: nat, accepted: bool)
    requires i < |reports| && forall c :: MarkOf(entries, c) == MarkAfter(first, reports[..i], c)
    requires var r := reports[i];
             && MarkOf(entries', r.client) == Join(MarkOf(entries, r.client), Mark(r.clock, r.state))
             && (accepted <==> MarkOf(entries', r.client) != MarkOf(entries, r.client))
             && (!accepted ==> entries' == entries) && entries.Keys <= entries'.Keys
             && (accepted ==> r.client in entries' && Forgets(entries - {r.client}, entries' - {r.client}))
    ensures Changes(first, reports[..i + 1]) == Changes(first, reports[..i]) + (if accepted then [reports[i].client]
            else [])
    ensures forall c :: MarkOf(entries', c) == MarkAfter(first, reports[..i + 1], c)
  {
    var r := reports[i];
    assert reports[..i + 1][..i] == reports[..i];
    forall c
      ensures MarkOf(entries', c) == MarkAfter(first, reports[..i + 1], c)
    {
      if c != r.client && accepted {
        assert c in entries <==> c in entries - {r.client};
        assert c in entries' <==> c in entries' - {r.client};
      }
    }
  }

  ghost function MarksFor(reports: seq<Report>, c: nat): set<Mark> {
    set r | r in reports && r.client == c :: Mark(r.clock, r.state)
  }

  lemma MarksForNothing(heard: map<nat, set<Mark>>)
    ensures forall c {:trigger HeardOf(heard, c)} :: HeardOf(heard, c) == HeardOf(heard, c) + MarksFor([], c)
  {
  }

  lemma MarksForMore(first: map<nat, set<Mark>>, heard: map<nat, set<Mark>>, heard': map<nat, set<Mark>>,
                     reports: seq<Report>, i: nat)
    requires i < |reports|
    requires forall c {:trigger HeardOf(heard, c)} :: HeardOf(heard, c) == HeardOf(first, c) + MarksFor(reports[..i], c)
    requires HeardExcept(Hears(heard, reports[i].client, Mark(reports[i].clock, reports[i].state)), heard', {})
    ensures forall c {:trigger HeardOf(heard', c)} ::
            HeardOf(heard', c) == HeardOf(first, c) + MarksFor(reports[..i + 1], c)
  {
    var r := reports[i];
    assert reports[..i + 1] == reports[..i] + [r];
    forall c
      ensures HeardOf(heard', c) == HeardOf(first, c) + MarksFor(reports[..i + 1], c)
    {
      assert HeardOf(heard, c) == HeardOf(first, c) + MarksFor(reports[..i], c);
      assert MarksFor(reports[..i + 1], c) == MarksFor(reports[..i],
          c) + (if r.client == c then {Mark(r.clock, r.state)} else {});
      assert HeardOf(heard', c) == HeardOf(Hears(heard, r.client, Mark(r.clock, r.state)), c);
    }
  }

  lemma OthersStay(entries: map<nat, Entry>, c: nat, e: Entry)
    ensures entries[c := e] - {c} == entries - {c}
  {
  }

  lemma PresentMember(entries: map<nat, Entry>, c: nat)
    ensures c in PresentIn(entries) <==> c in entries && entries[c].present
  {
  }

  lemma ForgetsOthers(entries: map<nat, Entry>, entries': map<nat, Entry>, c: nat)
    requires c !in entries && Forgets(entries, entries')
    ensures c !in entries' && entries - {c} == entries && entries' - {c} == entries'
  {
  }
}
