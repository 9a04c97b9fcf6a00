/**
  RPOPLPUSH drops its guards before it sends its record, so other commands can be carried out, and their records sent,
  in between. Which of them do no harm?
 */
module Overtaking {
  import opened Prelude
  import opened Decimal
  import opened Protocol
  import opened Keyspace
  import opened Durability
  import opened Expiry
  import opened Commuting

  /** The commands whose records may be logged before that of an RPOPLPUSH carried out earlier. */
  predicate MayOvertake(c: Command, s: Bytes, d: Bytes) {
    match c
    case Set(k, _) => k != s || s == d
    case SetEx(k, seconds, _) => k != s || s == d || seconds < 0
    case Get(k) => k != d || s == d
    case Del(k) => s == d || (k != s && k != d)
    case LPush(k, _) => k != d
    case RPush(k, _) => k != s
    case LPop(k) => k != d
    case RPop(k) => k != s && k != d
    case LTrim(k, start, stop) => k == d && start == 0 && stop == -1
    case LRem(k, _, _) => k != d
    case RPopLPush(s', d') => (s' == s && d' == d) || (s' != s && s' != d && d' != d)
    case _ => true
  }

  /** An LTRIM is never replayed, so it does not matter where its record stands, only that it trimmed nothing. */
  predicate Passes(c: Command, s: Bytes, d: Bytes) { c.LTrim? || MayOvertake(c, s, d) }

  /** What a command finds when it writes a record. */
  predicate Effective(db: Store, c: Command) {
    match c
    case Set(_, _) => true
    case SetEx(_, seconds, _) => seconds >= 0
    case Get(k) => k in db && db[k].expiresAt.Some?
    case Del(k) => k in db
    case Incr(k) => k in db ==> db[k].value.Str?
    case LPush(k, _) => k in db ==> db[k].value.List?
    case RPush(k, _) => k in db ==> db[k].value.List?
    case LPop(k) => k in db && db[k].value.List? && db[k].value.items != []
    case RPop(k) => k in db && db[k].value.List? && db[k].value.items != []
    case LTrim(_, _, _) => true
    case LRem(k, _, v) => k in db && db[k].value.List? && v in db[k].value.items
    case HSet(k, _, _) => k in db ==> db[k].value.Hash?
    case SAdd(k, _) => k in db ==> db[k].value.Members?
    case RPopLPush(s, d) => MoveTail(db, s, d).Some?
    case _ => false
  }

  lemma LoggedIsEffective(db: Store, c: Command, now: nat)
    requires InRange(c) && LiveCommand(db, c, now).log != []
    ensures Effective(db, c) && Modelled(c)
  {
  }

  lemma EffectiveSimilar(a: Store, b: Store, c: Command)
    requires Similar(a, b) && Modelled(c)
    ensures Effective(a, c) == Effective(b, c)
  {
    if SingleKey(c) {
      assert SimilarCell(Look(a, c.key), Look(b, c.key));
    } else {
      assert SimilarCell(Look(a, c.source), Look(b, c.source));
    }
  }

  lemma EffectiveFrame(a: Store, b: Store, c: Command)
    requires Modelled(c) && AgreeOn(a, b, KeysOf(c))
    ensures Effective(a, c) == Effective(b, c)
  {
    if SingleKey(c) {
      assert Look(a, c.key) == Look(b, c.key);
    } else {
      assert Look(a, c.source) == Look(b, c.source);
    }
  }

  /** A move between two lists has something to move; a list turned onto itself may be gone. */
  predicate Proper(db: Store, s: Bytes, d: Bytes) { s == d || MoveTail(db, s, d).Some? }

  function Moved(db: Store, s: Bytes, d: Bytes): Store {
    match MoveTail(db, s, d)
    case Some((_, after)) => after
    case None => db
  }

  /** A record before a move gives what it gives behind it. */
  predicate Swaps(y: Store, rec: Command, s: Bytes, d: Bytes, later: nat) {
    Replayable(rec, later) && Moved(Replayed(y, rec, later), s, d) == Replayed(Moved(y, s, d), rec, later)
  }

  /** What a move leaves in its two lists. */
  lemma MoveLooks(db: Store, s: Bytes, d: Bytes)
    requires MoveTail(db, s, d).Some? && s != d
    ensures var items, after := db[s].value.items, Moved(db, s, d);
            var v := items[|items| - 1];
            && Look(after, s) == Some(Entry(List(items[..|items| - 1]), db[s].expiresAt))
            && Look(after, d) == PushedFront(Look(db, d), v)
            && forall k :: k != s && k != d ==> Look(after, k) == Look(db, k)
  {
  }

  lemma TurnLooks(db: Store, s: Bytes)
    ensures forall k :: k != s ==> Look(Moved(db, s, s), k) == Look(db, k)
    ensures if MoveTail(db, s, s).Some? then
              && s in Moved(db, s, s) && Moved(db, s, s)[s].value.List? && Moved(db, s, s)[s].value.items != []
              && Moved(db, s, s)[s].expiresAt == db[s].expiresAt
            else Moved(db, s, s) == db
  {
  }

  lemma MovedIsReplayed(db: Store, s: Bytes, d: Bytes, later: nat)
    ensures ReplayCommand(db, RPopLPush(s, d), later) == Some(Moved(db, s, d))
  {
  }

  // ---- Swapping one record with a move ----

  lemma SwapElsewhere(y: Store, c: Command, s: Bytes, d: Bytes, later: nat)
    requires Modelled(c) && KeysOf(c) !! {s, d} && Replayable(RecordOf(c), later) && Effective(Moved(y, s, d), c)
    requires Proper(y, s, d)
    ensures Effective(y, c) && Swaps(y, RecordOf(c), s, d, later) && Proper(Replayed(y, RecordOf(c), later), s, d)
  {
    var m, rec := RPopLPush(s, d), RecordOf(c);
    ReplayFrame(y, y, m, later);
    MovedIsReplayed(y, s, d, later);
    EffectiveFrame(y, Moved(y, s, d), c);
    ReplayCommutes(y, m, rec, later);
    TwoReplay(y, m, rec, later);
    TwoReplay(y, rec, m, later);
    MovedIsReplayed(Replayed(y, rec, later), s, d, later);
    ReplayFrame(y, y, rec, later);
    assert Look(Replayed(y, rec, later), s) == Look(y, s);
  }

  lemma SwapTrim(y: Store, c: Command, s: Bytes, d: Bytes, later: nat)
    requires c.LTrim? && Proper(y, s, d)
    ensures Effective(y, c) && Swaps(y, c, s, d, later) && Proper(Replayed(y, c, later), s, d)
  {
    PutSame(y, c.key);
    PutSame(Moved(y, s, d), c.key);
  }

  lemma SwapPushToSource(y: Store, r: Bytes, s: Bytes, d: Bytes)
    requires r != s && r != d && s != d && MoveTail(y, s, d).Some? && MoveTail(Moved(y, s, d), r, s).Some?
    ensures MoveTail(y, r, s).Some? && MoveTail(Moved(y, r, s), s, d).Some?
    ensures Moved(Moved(y, r, s), s, d) == Moved(Moved(y, s, d), r, s)
  {
    var x, z := Moved(y, r, s), Moved(y, s, d);
    MoveLooks(y, s, d);
    MoveLooks(y, r, s);
    MoveLooks(z, r, s);
    var items, u := y[s].value.items, y[r].value.items[|y[r].value.items| - 1];
    assert x[s].value == List([u] + items);
    MoveLooks(x, s, d);
    assert ([u] + items)[..|items|] == [u] + items[..|items| - 1];
    SameStore(Moved(x, s, d), Moved(z, r, s));
  }

  /** Another move: the same one again, or one that pushes to the source from elsewhere. */
  lemma SwapMoves(y: Store, c: Command, s: Bytes, d: Bytes, later: nat)
    requires c.RPopLPush? && MayOvertake(c, s, d) && Proper(y, s, d) && Effective(Moved(y, s, d), c)
    requires !(KeysOf(c) !! {s, d})
    ensures Effective(y, c) && Swaps(y, c, s, d, later) && Proper(Replayed(y, c, later), s, d)
  {
    MovedIsReplayed(y, c.source, c.destination, later);
    MovedIsReplayed(Moved(y, s, d), c.source, c.destination, later);
    if c == RPopLPush(s, d) {
      if s != d { MoveLooks(y, s, d); }
    } else {
      SwapPushToSource(y, c.source, s, d);
    }
  }

  /** Turning a list is undone by whoever overwrites or removes it. */
  lemma SwapRotation(y: Store, c: Command, s: Bytes, later: nat)
    requires SingleKey(c) && c.key == s && MayOvertake(c, s, s) && Replayable(RecordOf(c), later) && !c.LTrim?
    requires OnlyStringsExpire(y) && Effective(Moved(y, s, s), c)
    ensures Effective(y, c) && Swaps(y, RecordOf(c), s, s, later)
  {
    var rec := RecordOf(c);
    var z := Moved(y, s, s);
    TurnLooks(y, s);
    assert s in y ==> EntryOk(y[s]);
    var cell := ReplayCell(Look(y, s), rec, later);
    assert ReplayCell(Look(z, s), rec, later) == cell;
    PutFrame(y, s, cell);
    PutFrame(z, s, cell);
    assert MoveTail(Put(y, s, cell), s, s).None?;
    SameStore(Put(y, s, cell), Put(z, s, cell));
  }

  lemma {:induction false} RemoveFirstAhead(front: seq<Bytes>, v: Bytes, x: Bytes)
    requires x in front
    ensures RemoveFirst(front + [v], x) == RemoveFirst(front, x) + [v]
  {
    assert (front + [v])[1..] == front[1..] + [v];
    if front[0] != x {
      RemoveFirstAhead(front[1..], v, x);
      AppendAssociates([front[0]], RemoveFirst(front[1..], x), [v]);
    }
  }

  lemma SwapSourceCells(y: Store, s: Bytes, d: Bytes, x: Cell, z: Cell, v: Bytes)
    requires MoveTail(y, s, d).Some? && s != d && y[s].value.items[|y[s].value.items| - 1] == v
    requires z.Some? && z.value.value.List?
    requires x == Some(Entry(List(z.value.value.items + [v]), z.value.expiresAt))
    ensures MoveTail(Put(y, s, x), s, d).Some?
    ensures Moved(Put(y, s, x), s, d) == Put(Moved(y, s, d), s, z)
  {
    var rest := z.value.value.items;
    var y' := Put(y, s, x);
    PutFrame(y, s, x);
    MoveLooks(y, s, d);
    MoveLooks(y', s, d);
    PutFrame(Moved(y, s, d), s, z);
    assert (rest + [v])[..|rest|] == rest;
    SameStore(Moved(y', s, d), Put(Moved(y, s, d), s, z));
  }

  /** At the other end of the source: a push to its head, a pop from it, the removal of an element that stays. */
  lemma SwapSource(y: Store, c: Command, s: Bytes, d: Bytes, later: nat)
    requires SingleKey(c) && c.key == s != d && MayOvertake(c, s, d) && Replayable(RecordOf(c), later)
    requires OnlyStringsExpire(y) && MoveTail(y, s, d).Some? && Effective(Moved(y, s, d), c) && !c.LTrim?
    requires InRange(c)
    ensures Effective(y, c) && Swaps(y, RecordOf(c), s, d, later)
    ensures MoveTail(Replayed(y, RecordOf(c), later), s, d).Some?
  {
    var rec := RecordOf(c);
    var items, exp := y[s].value.items, y[s].expiresAt;
    var front, v := items[..|items| - 1], items[|items| - 1];
    MoveLooks(y, s, d);
    assert EntryOk(y[s]);
    assert c.LPush? || c.LPop? || c.LRem?;
    assert items == front + [v];
    if c.LRem? {
      RemoveFirstAhead(front, v, c.value);
    } else if c.LPush? {
      AppendAssociates([c.value], front, [v]);
    } else {
      assert (front + [v])[1..] == front[1..] + [v];
    }
    var x := ReplayCell(Some(Entry(List(items), exp)), rec, later);
    var z := ReplayCell(Some(Entry(List(front), exp)), rec, later);
    assert x == Some(Entry(List(z.value.value.items + [v]), exp)) && z.value.expiresAt == exp;
    SwapSourceCells(y, s, d, x, z, v);
  }

  lemma DestinationCells(cell: Cell, c: Command, v: Bytes, later: nat)
    requires c.Set? || c.SetEx? || c.Incr? || c.RPush? || c.HSet? || c.SAdd?
    requires Replayable(c, later)
    requires Effective(Put(map[], c.key, PushedFront(cell, v)), c)
    ensures ReplayCell(PushedFront(cell, v), c, later) == PushedFront(ReplayCell(cell, c, later), v)
    ensures Effective(Put(map[], c.key, cell), c)
  {
    if c.RPush? && cell.Some? && cell.value.value.List? {
      AppendAssociates([v], cell.value.value.items, [c.value]);
    } else if c.RPush? {
      assert [v] + [c.value] == [v, c.value];
    }
  }

  /** At the destination: whatever does not look at the head of its list. */
  lemma SwapDestination(y: Store, c: Command, s: Bytes, d: Bytes, later: nat)
    requires SingleKey(c) && c.key == d != s && MayOvertake(c, s, d) && Replayable(RecordOf(c), later)
    requires MoveTail(y, s, d).Some? && Effective(Moved(y, s, d), c) && !c.LTrim?
    ensures Effective(y, c) && Swaps(y, RecordOf(c), s, d, later)
    ensures MoveTail(Replayed(y, RecordOf(c), later), s, d).Some?
  {
    var rec := RecordOf(c);
    var items := y[s].value.items;
    var v := items[|items| - 1];
    MoveLooks(y, s, d);
    var x := ReplayCell(Look(y, d), rec, later);
    var z := ReplayCell(PushedFront(Look(y, d), v), rec, later);
    DestinationCells(Look(y, d), c, v, later);
    assert z == PushedFront(x, v);
    var y' := Put(y, d, x);
    PutFrame(y, d, x);
    MoveLooks(y', s, d);
    PutFrame(Moved(y, s, d), d, z);
    SameStore(Moved(y', s, d), Put(Moved(y, s, d), d, z));
  }

  /** A command that may overtake a move writes the same record before it, and changes nothing by going first. */
  lemma Swap(y: Store, c: Command, s: Bytes, d: Bytes, later: nat)
    requires OnlyStringsExpire(y) && InRange(c) && Modelled(c) && Passes(c, s, d)
    requires Replayable(RecordOf(c), later) && Proper(y, s, d) && Effective(Moved(y, s, d), c)
    ensures Effective(y, c) && Swaps(y, RecordOf(c), s, d, later) && Proper(Replayed(y, RecordOf(c), later), s, d)
  {
    if c.LTrim? {
      SwapTrim(y, c, s, d, later);
    } else if KeysOf(c) !! {s, d} {
      SwapElsewhere(y, c, s, d, later);
    } else if c.RPopLPush? {
      SwapMoves(y, c, s, d, later);
    } else if s == d {
      SwapRotation(y, c, s, later);
    } else if c.key == s {
      SwapSource(y, c, s, d, later);
    } else {
      SwapDestination(y, c, s, d, later);
    }
  }

  // ---- Passing all owed records ----

  /** The command's record may be logged before that of `e`, carried out earlier; `strings`: only strings expire. */
  predicate MayPass(strings: bool, c: Command, e: Command) {
    KeysOf(c) !! KeysOf(e) || (strings && e.RPopLPush? && Passes(c, e.source, e.destination))
  }

  /** A command whose record can be owed. */
  predicate Owable(c: Command, later: nat) { Modelled(c) && InRange(c) && Replayable(RecordOf(c), later) }

  /** The record finds in replay what its command found; a list turned onto itself may be gone. */
  predicate Ready(db: Store, c: Command) { (c.RPopLPush? && c.source == c.destination) || Effective(db, c) }

  function RecordsFor(cs: seq<Command>): (rs: seq<Command>)
    ensures |rs| == |cs|
  {
    seq(|cs|, i requires 0 <= i < |cs| => RecordOf(cs[i]))
  }

  lemma RecordsFirst(c: Command, rest: seq<Command>)
    ensures RecordsFor([c] + rest) == [RecordOf(c)] + RecordsFor(rest)
  {
  }

  lemma RecordsAppend(a: seq<Command>, b: seq<Command>)
    ensures RecordsFor(a + b) == RecordsFor(a) + RecordsFor(b)
  {
  }

  /** Every command of the list is ready when its record's turn comes. */
  predicate AllReady(x: Store, cs: seq<Command>, later: nat)
    decreases |cs|
  {
    cs == [] ||
    (Owable(cs[0], later) && Ready(x, cs[0]) && AllReady(Replayed(x, RecordOf(cs[0]), later), cs[1..], later))
  }

  lemma AllReadyFirst(x: Store, c: Command, rest: seq<Command>, later: nat)
    ensures AllReady(x, [c] + rest, later) <==>
            Owable(c, later) && Ready(x, c) && AllReady(Replayed(x, RecordOf(c), later), rest, later)
    ensures Owable(c, later) ==>
              ReplayAll(x, RecordsFor([c] + rest), later) ==
              ReplayAll(Replayed(x, RecordOf(c), later), RecordsFor(rest), later)
  {
    assert ([c] + rest)[1..] == rest;
    RecordsFirst(c, rest);
    assert ([RecordOf(c)] + RecordsFor(rest))[1..] == RecordsFor(rest);
  }

  lemma {:induction false} AllReadyAppend(x: Store, a: seq<Command>, b: seq<Command>, later: nat)
    requires AllReady(x, a, later)
    ensures ReplayAll(x, RecordsFor(a), later).Some?
    ensures AllReady(x, a + b, later) <==> AllReady(ReplayAll(x, RecordsFor(a), later).value, b, later)
    decreases |a|
  {
    if a == [] {
      assert a + b == b;
    } else {
      var c, rest := a[0], a[1..];
      assert a == [c] + rest;
      AppendAssociates([c], rest, b);
      AllReadyFirst(x, c, rest, later);
      AllReadyFirst(x, c, rest + b, later);
      AllReadyAppend(Replayed(x, RecordOf(c), later), rest, b, later);
    }
  }

  lemma RecordKeys(c: Command)
    requires Modelled(c)
    ensures KeysOf(RecordOf(c)) == KeysOf(c)
  {
  }

  lemma ReadyFrame(a: Store, b: Store, c: Command)
    requires Modelled(c) && AgreeOn(a, b, KeysOf(c))
    ensures Ready(a, c) == Ready(b, c)
  {
    EffectiveFrame(a, b, c);
  }

  /** Two commands on different keys. */
  lemma SwapApart(x: Store, c: Command, e: Command, later: nat)
    requires Owable(c, later) && Owable(e, later) && KeysOf(c) !! KeysOf(e)
    ensures var y, z := Replayed(x, RecordOf(e), later), Replayed(x, RecordOf(c), later);
            && Ready(y, c) == Ready(x, c) && Ready(z, e) == Ready(x, e)
            && Replayed(z, RecordOf(e), later) == Replayed(y, RecordOf(c), later)
  {
    var c', e' := RecordOf(c), RecordOf(e);
    RecordKeys(c);
    RecordKeys(e);
    ReplayCommutes(x, c', e', later);
    TwoReplay(x, c', e', later);
    TwoReplay(x, e', c', later);
    ReplayFrame(x, x, c', later);
    ReplayFrame(x, x, e', later);
    ReadyFrame(Replayed(x, e', later), x, c);
    ReadyFrame(Replayed(x, c', later), x, e);
  }

  /** A command behind a move that it may pass. */
  lemma SwapMove(x: Store, c: Command, e: Command, later: nat)
    requires Owable(c, later) && e.RPopLPush? && Passes(c, e.source, e.destination) && OnlyStringsExpire(x)
    requires !(KeysOf(c) !! KeysOf(e)) && Ready(x, e) && Ready(Replayed(x, e, later), c)
    ensures Ready(x, c) && Ready(Replayed(x, RecordOf(c), later), e)
    ensures Replayed(Replayed(x, RecordOf(c), later), e, later) == Replayed(Replayed(x, e, later), RecordOf(c), later)
  {
    if c.RPopLPush? && c.source == c.destination {
      assert c == e;
    } else {
      MovedIsReplayed(x, e.source, e.destination, later);
      MovedIsReplayed(Replayed(x, RecordOf(c), later), e.source, e.destination, later);
      Swap(x, c, e.source, e.destination, later);
    }
  }

  lemma SwapReady(x: Store, c: Command, e: Command, strings: bool, later: nat)
    requires Owable(c, later) && Owable(e, later) && MayPass(strings, c, e) && (strings ==> OnlyStringsExpire(x))
    requires Ready(x, e) && Ready(Replayed(x, RecordOf(e), later), c)
    ensures var z := Replayed(x, RecordOf(c), later);
            && Ready(x, c) && Ready(z, e)
            && Replayed(z, RecordOf(e), later) == Replayed(Replayed(x, RecordOf(e), later), RecordOf(c), later)
  {
    if KeysOf(c) !! KeysOf(e) {
      SwapApart(x, c, e, later);
    } else {
      SwapMove(x, c, e, later);
    }
  }

  /** A command carried out behind others that it may pass: its record can as well be replayed before theirs. */
  lemma {:induction false} PassAll(x: Store, c: Command, b: seq<Command>, strings: bool, later: nat)
    requires AllReady(x, b + [c], later) && (strings ==> OnlyStringsExpire(x))
    requires forall e :: e in b ==> MayPass(strings, c, e)
    ensures AllReady(x, [c] + b, later)
    ensures ReplayAll(x, RecordsFor([c] + b), later) == ReplayAll(x, RecordsFor(b + [c]), later)
    decreases |b|
  {
    if b == [] {
      assert [c] + b == b + [c];
    } else {
      var e, rest := b[0], b[1..];
      assert b == [e] + rest && e in b && forall d :: d in rest ==> d in b;
      AppendAssociates([e], rest, [c]);
      AllReadyFirst(x, e, rest + [c], later);
      var y := Replayed(x, RecordOf(e), later);
      if strings { ReplayKeepsStrings(x, RecordOf(e), later); }
      PassAll(y, c, rest, strings, later);
      AllReadyFirst(y, c, rest, later);
      SwapReady(x, c, e, strings, later);
      AllReadyFirst(x, c, [e] + rest, later);
      AllReadyFirst(Replayed(x, RecordOf(c), later), e, rest, later);
    }
  }

  // ---- Exactly these ----

  /** The command is carried out after the move, and its records are sent before the move's. */
  ghost predicate AgreesOvertaken(db: Store, c: Command, s: Bytes, d: Bytes, now: nat, later: nat) {
    var r := LiveCommand(Moved(db, s, d), c, now);
    Agrees(db, r.log + [RPopLPush(s, d)], r.db, later)
  }

  /** In no keyspace with an element to move, and at no time, does overtaking the move's record do any harm. */
  ghost predicate Harmless(c: Command, s: Bytes, d: Bytes) {
    forall db, now, later ::
      OnlyStringsExpire(db) && MoveTail(db, s, d).Some? &&
      RecordsReplayable(LiveCommand(Moved(db, s, d), c, now).log, later) ==>
        AgreesOvertaken(db, c, s, d, now, later)
  }

  /** The one LTRIM that may overtake keeps the list at the destination, which is not empty. */
  lemma MovedTrimIsIdle(db: Store, c: Command, s: Bytes, d: Bytes)
    requires MoveTail(db, s, d).Some? && MayOvertake(c, s, d)
    ensures TrimIsIdle(Moved(db, s, d), c)
  {
    if s == d { TurnLooks(db, s); } else { MoveLooks(db, s, d); }
  }

  lemma OneRecord(db: Store, c: Command, now: nat)
    requires InRange(c)
    ensures var log := LiveCommand(db, c, now).log; log == [] || log == [RecordOf(c)]
  {
    LiveRecords(db, c, now);
  }

  lemma MayOvertakeAgrees(db: Store, c: Command, s: Bytes, d: Bytes, now: nat, later: nat)
    requires InRange(c) && MayOvertake(c, s, d) && OnlyStringsExpire(db) && MoveTail(db, s, d).Some?
    requires RecordsReplayable(LiveCommand(Moved(db, s, d), c, now).log, later)
    ensures AgreesOvertaken(db, c, s, d, now, later)
  {
    var moved, m, rec := Moved(db, s, d), RPopLPush(s, d), RecordOf(c);
    var r := LiveCommand(moved, c, now);
    MovedTrimIsIdle(db, c, s, d);
    StepReplays(moved, moved, c, now, later);
    OneRecord(moved, c, now);
    MovedIsReplayed(db, s, d, later);
    if r.log == [] {
      assert r.log + [m] == [m];
      ReplayOne(db, m, later);
    } else {
      assert rec in r.log;
      LoggedIsEffective(moved, c, now);
      Swap(db, c, s, d, later);
      ReplayOne(moved, rec, later);
      TwoReplay(db, rec, m, later);
      MovedIsReplayed(Replayed(db, rec, later), s, d, later);
      assert r.log + [m] == [rec, m];
    }
  }

  /** A keyspace in which the command is logged, and overtaking does harm. */
  ghost predicate ClashesIn(db: Store, c: Command, s: Bytes, d: Bytes) {
    && OnlyStringsExpire(db) && MoveTail(db, s, d).Some?
    && LiveCommand(Moved(db, s, d), c, 1).log == [RecordOf(c)] && Replayable(RecordOf(c), 0)
    && !AgreesOvertaken(db, c, s, d, 1, 0)
  }

  ghost predicate Clashes(c: Command, s: Bytes, d: Bytes) { exists db :: ClashesIn(db, c, s, d) }

  /** A keyspace in which the two orders differ at one key. */
  lemma Clash(db: Store, c: Command, s: Bytes, d: Bytes, k: Bytes)
    requires OnlyStringsExpire(db) && MoveTail(db, s, d).Some?
    requires LiveCommand(Moved(db, s, d), c, 1).log == [RecordOf(c)] && Replayable(RecordOf(c), 0)
    requires !SimilarCell(Look(LiveCommand(Moved(db, s, d), c, 1).db, k),
                          Look(Moved(Replayed(db, RecordOf(c), 0), s, d), k))
    ensures Clashes(c, s, d)
  {
    var r, rec, m := LiveCommand(Moved(db, s, d), c, 1), RecordOf(c), RPopLPush(s, d);
    assert r.log + [m] == [rec, m];
    TwoReplay(db, rec, m, 0);
    MovedIsReplayed(Replayed(db, rec, 0), s, d, 0);
    assert !SimilarCell(Look(r.db, k), Look(Moved(Replayed(db, rec, 0), s, d), k));
    assert ClashesIn(db, c, s, d);
  }

  function ListEntry(items: seq<Bytes>): Entry { Entry(List(items), None) }

  /** One element, at the source only. */
  function Single(s: Bytes, v: Bytes): Store { map[s := ListEntry([v])] }

  lemma SingleMoved(s: Bytes, d: Bytes, v: Bytes)
    requires s != d
    ensures Moved(Single(s, v), s, d) == map[s := ListEntry([]), d := ListEntry([v])]
    ensures MoveTail(Single(s, v), s, d).Some? && OnlyStringsExpire(Single(s, v))
  {
    assert [v][..0] == [];
  }

  lemma OverwriteClashes(c: Command, s: Bytes, d: Bytes)
    requires s != d && ((c.Set? && c.key == s) || (c.SetEx? && c.key == s && 0 <= c.seconds <= I64_MAX))
    ensures Clashes(c, s, d)
  {
    var db := Single(s, "v");
    SingleMoved(s, d, "v");
    var x := Replayed(db, c, 0);
    assert Look(Moved(x, s, d), d) == None;
    assert Look(LiveCommand(Moved(db, s, d), c, 1).db, d).Some?;
    Clash(db, c, s, d, d);
  }

  lemma GetClashes(s: Bytes, d: Bytes)
    requires s != d
    ensures Clashes(Get(d), s, d)
  {
    var db: Store := map[s := ListEntry(["v"]), d := Entry(Str("x"), Some(0))];
    MoveLooks(db, s, d);
    assert Look(Moved(db, s, d), d) == Look(db, d);
    var x := Replayed(db, Del(d), 0);
    assert Look(x, s) == Look(db, s) && Look(x, d) == None;
    MoveLooks(x, s, d);
    Clash(db, Get(d), s, d, d);
  }

  lemma DelClashes(k: Bytes, s: Bytes, d: Bytes)
    requires s != d && (k == s || k == d)
    ensures Clashes(Del(k), s, d)
  {
    var db := Single(s, "v");
    SingleMoved(s, d, "v");
    var x := Replayed(db, Del(k), 0);
    if k == s {
      assert Look(Moved(x, s, d), d) == None;
    } else {
      assert x == db;
    }
    Clash(db, Del(k), s, d, d);
  }

  /** A move out of a list given by its front and its last element. */
  lemma MovedOut(db: Store, s: Bytes, d: Bytes, front: seq<Bytes>, v: Bytes)
    requires s != d && Look(db, s) == Some(ListEntry(front + [v]))
    ensures MoveTail(db, s, d).Some? && Look(Moved(db, s, d), s) == Some(ListEntry(front))
    ensures Look(Moved(db, s, d), d) == PushedFront(Look(db, d), v)
  {
    assert (front + [v])[..|front|] == front && (front + [v])[|front|] == v;
    MoveLooks(db, s, d);
  }

  lemma TurnedOnce(db: Store, s: Bytes, front: seq<Bytes>, v: Bytes)
    requires Look(db, s) == Some(ListEntry(front + [v]))
    ensures MoveTail(db, s, s).Some? && Look(Moved(db, s, s), s) == Some(ListEntry([v] + front))
  {
    assert (front + [v])[..|front|] == front && (front + [v])[|front|] == v;
  }

  /** The two orders leave different lists under the one key. */
  lemma TurnClash(db: Store, c: Command, s: Bytes, live: seq<Bytes>, replayed: seq<Bytes>)
    requires OnlyStringsExpire(db) && MoveTail(db, s, s).Some? && live != replayed
    requires LiveCommand(Moved(db, s, s), c, 1).log == [RecordOf(c)] && Replayable(RecordOf(c), 0)
    requires Look(LiveCommand(Moved(db, s, s), c, 1).db, s) == Some(ListEntry(live))
    requires Look(Moved(Replayed(db, RecordOf(c), 0), s, s), s) == Some(ListEntry(replayed))
    ensures Clashes(c, s, s)
  {
    Clash(db, c, s, s, s);
  }

  lemma TwoApart(x: Bytes, y: Bytes)
    requires x != y
    ensures [x] + [y] != [y] + [x]
  {
    assert ([x] + [y])[0] == x && ([y] + [x])[0] == y;
  }

  /** Turned or not, a list of one element is the same. */
  lemma SingleTurned(s: Bytes, v: Bytes)
    ensures MoveTail(Single(s, v), s, s).Some? && Moved(Single(s, v), s, s) == Single(s, v)
    ensures OnlyStringsExpire(Single(s, v))
  {
    assert [] + [v] == [v] && [v] + [] == [v];
    TurnedOnce(Single(s, v), s, [], v);
    TurnLooks(Single(s, v), s);
    SameStore(Moved(Single(s, v), s, s), Single(s, v));
  }

  lemma Longer(x: Bytes)
    ensures x + "v" != x
  {
    assert |x + "v"| == |x| + 1;
  }

  lemma PushClashes(x: Bytes, s: Bytes, d: Bytes)
    ensures Clashes(LPush(d, x), s, d)
  {
    var v, c := x + "v", LPush(d, x);
    var db := Single(s, v);
    Longer(x);
    TwoApart(x, v);
    var y := Replayed(db, c, 0);
    if s == d {
      SingleTurned(s, v);
      assert Look(y, s) == Some(ListEntry([x] + [v]));
      TurnedOnce(y, s, [x], v);
      TurnClash(db, c, s, [x] + [v], [v] + [x]);
    } else {
      SingleMoved(s, d, v);
      assert Look(y, s) == Look(db, s) && Look(y, d) == Some(ListEntry([x])) && [] + [v] == [v];
      MovedOut(y, s, d, [], v);
      Clash(db, c, s, d, d);
    }
  }

  lemma AppendTurnedClashes(x: Bytes, s: Bytes)
    ensures Clashes(RPush(s, x), s, s)
  {
    var v, c := x + "v", RPush(s, x);
    var db := Single(s, v);
    Longer(x);
    TwoApart(x, v);
    SingleTurned(s, v);
    var y := Replayed(db, c, 0);
    assert Look(y, s) == Some(ListEntry([v] + [x]));
    TurnedOnce(y, s, [v], x);
    TurnClash(db, c, s, [v] + [x], [x] + [v]);
  }

  lemma AppendClashes(x: Bytes, s: Bytes, d: Bytes)
    ensures Clashes(RPush(s, x), s, d)
  {
    if s == d {
      AppendTurnedClashes(x, s);
    } else {
      var v, c := x + "v", RPush(s, x);
      var db := Single(s, v);
      Longer(x);
      SingleMoved(s, d, v);
      var y := Replayed(db, c, 0);
      assert Look(y, s) == Some(ListEntry([v] + [x])) && Look(y, d) == None;
      MovedOut(y, s, d, [v], x);
      assert Look(LiveCommand(Moved(db, s, d), c, 1).db, d) == Some(ListEntry([v])) && [v][0] != [x][0];
      Clash(db, c, s, d, d);
    }
  }

  /** Two different elements at the source. */
  function Pair(s: Bytes): Store { map[s := ListEntry(["a"] + ["v"])] }

  lemma PairFacts()
    ensures ["a"] + ["v"] != ["v"] + ["a"] && ["a"] != ["v"]
    ensures (["a"] + ["v"])[1..] == ["v"] && (["a"] + ["v"])[..1] == ["a"]
    ensures (["v"] + ["a"])[1..] == ["a"] && (["v"] + ["a"])[..1] == ["v"]
    ensures [] + ["a"] == ["a"] && [] + ["v"] == ["v"] && ["a"] + [] == ["a"] && ["v"] + [] == ["v"]
  {
    assert "a"[0] != "v"[0];
    assert ["a"][0] != ["v"][0];
    TwoApart("a", "v");
  }

  lemma PopHeadTurnedClashes(s: Bytes)
    ensures Clashes(LPop(s), s, s)
  {
    var db := Pair(s);
    PairFacts();
    TurnedOnce(db, s, ["a"], "v");
    var y := Replayed(db, LPop(s), 0);
    assert Look(y, s) == Some(ListEntry([] + ["v"]));
    TurnedOnce(y, s, [], "v");
    TurnClash(db, LPop(s), s, ["a"], ["v"]);
  }

  lemma PopTailTurnedClashes(s: Bytes)
    ensures Clashes(RPop(s), s, s)
  {
    var db := Pair(s);
    PairFacts();
    TurnedOnce(db, s, ["a"], "v");
    var y := Replayed(db, RPop(s), 0);
    assert Look(y, s) == Some(ListEntry([] + ["a"]));
    TurnedOnce(y, s, [], "a");
    TurnClash(db, RPop(s), s, ["v"], ["a"]);
  }

  lemma PopDestinationClashes(c: Command, s: Bytes, d: Bytes)
    requires s != d && (c.LPop? || c.RPop?) && c.key == d
    ensures Clashes(c, s, d)
  {
    var db := Single(s, "v");
    SingleMoved(s, d, "v");
    assert Replayed(db, c, 0) == db;
    assert ["v"][1..] == [] && ["v"][..0] == [];
    Clash(db, c, s, d, d);
  }

  lemma PopClashes(c: Command, s: Bytes, d: Bytes)
    requires (c.LPop? && c.key == d) || (c.RPop? && (c.key == s || c.key == d))
    ensures Clashes(c, s, d)
  {
    if s == d {
      if c.LPop? { PopHeadTurnedClashes(s); } else { PopTailTurnedClashes(s); }
    } else if c.key == d {
      PopDestinationClashes(c, s, d);
    } else {
      var db := Pair(s);
      PairFacts();
      MovedOut(db, s, d, ["a"], "v");
      var y := Replayed(db, c, 0);
      assert Look(y, s) == Some(ListEntry([] + ["a"])) && Look(y, d) == None;
      MovedOut(y, s, d, [], "a");
      Clash(db, c, s, d, d);
    }
  }

  lemma {:induction false} RemovedEnds(front: seq<Bytes>, x: Bytes)
    requires x !in front
    ensures RemoveFirst([x] + front, x) == front && RemoveFirst(front + [x], x) == front
  {
    assert ([x] + front)[1..] == front;
    if front == [] {
      assert front + [x] == [x];
    } else {
      assert (front + [x])[1..] == front[1..] + [x];
      RemovedEnds(front[1..], x);
    }
  }

  lemma RemoveTurnedClashes(n: int, x: Bytes, s: Bytes)
    ensures Clashes(LRem(s, n, x), s, s)
  {
    var a, b := x + "a", x + "bb";
    assert |a| == |x| + 1 && |b| == |x| + 2;
    TwoApart(a, b);
    var front := [a] + [b];
    var db: Store := map[s := ListEntry(front + [x])];
    TurnedOnce(db, s, front, x);
    RemovedEnds(front, x);
    var y := Replayed(db, LRem(s, 1, x), 0);
    assert x in front + [x] && x in [x] + front;
    assert Look(y, s) == Some(ListEntry(front));
    TurnedOnce(y, s, [a], b);
    TurnClash(db, LRem(s, n, x), s, front, [b] + [a]);
  }

  lemma RemoveClashes(n: int, x: Bytes, s: Bytes, d: Bytes)
    ensures Clashes(LRem(d, n, x), s, d)
  {
    var c := LRem(d, n, x);
    if s == d {
      RemoveTurnedClashes(n, x, s);
    } else {
      var db := Single(s, x);
      SingleMoved(s, d, x);
      var y := Replayed(db, LRem(d, 1, x), 0);
      assert y == db;
      assert [x][1..] == [];
      Clash(db, c, s, d, d);
    }
  }

  /** Replay has no LTRIM arm, so an overtaking LTRIM does harm exactly when it trimmed something. */
  lemma TrimOvertaken(db: Store, c: Command, s: Bytes, d: Bytes, now: nat, later: nat)
    requires c.LTrim?
    ensures AgreesOvertaken(db, c, s, d, now, later) <==> TrimIsIdle(Moved(db, s, d), c)
  {
    var r, m := LiveCommand(Moved(db, s, d), c, now), RPopLPush(s, d);
    TrimAgrees(Moved(db, s, d), c, now);
    MovedIsReplayed(db, s, d, later);
    ReplayOne(db, m, later);
    if r.log == [] {
      assert r.log + [m] == [m];
    } else {
      PutSame(db, c.key);
      TwoReplay(db, c, m, later);
      assert r.log + [m] == [c, m];
    }
  }

  function Filled(n: nat): seq<Bytes> { seq(n, _ => "v") }

  /** A length at which the LTRIM does not keep the whole list. */
  function TrimmedLength(start: int, stop: int): nat {
    if stop >= 0 then stop + 2 else if stop < -1 || start > 0 then 1 else if start < 0 then 1 - start else 0
  }

  lemma TrimmedIsNotIdle(db: Store, k: Bytes, start: int, stop: int)
    requires k in db && db[k].value.List? && |db[k].value.items| == TrimmedLength(start, stop)
    ensures !TrimIsIdle(db, LTrim(k, start, stop))
  {
  }

  lemma TrimClashes(k: Bytes, start: int, stop: int, s: Bytes, d: Bytes)
    requires !MayOvertake(LTrim(k, start, stop), s, d)
    ensures !Harmless(LTrim(k, start, stop), s, d)
  {
    var n := TrimmedLength(start, stop);
    var db: Store :=
      if k == s != d then map[s := ListEntry(Filled(n + 1))]
      else if k == s then map[s := ListEntry(Filled(n))]
      else if k == d then map[s := ListEntry(["v"]), d := ListEntry(Filled(n - 1))]
      else map[s := ListEntry(["v"]), k := ListEntry(Filled(n))];
    var moved := Moved(db, s, d);
    if s == d { TurnLooks(db, s); } else { MoveLooks(db, s, d); }
    assert Look(moved, k).Some? && moved[k].value.List? && |moved[k].value.items| == n;
    TrimmedIsNotIdle(moved, k, start, stop);
    TrimOvertaken(db, LTrim(k, start, stop), s, d, 1, 0);
    assert RecordsReplayable(LiveCommand(moved, LTrim(k, start, stop), 1).log, 0);
    assert !AgreesOvertaken(db, LTrim(k, start, stop), s, d, 1, 0);
  }

  /** A second move, and a key at which it makes a difference which one is replayed first. */
  lemma MoveClash(db: Store, r: Bytes, e: Bytes, s: Bytes, d: Bytes, k: Bytes, live: Bytes, replayed: Bytes)
    requires OnlyStringsExpire(db) && MoveTail(db, s, d).Some? && MoveTail(Moved(db, s, d), r, e).Some?
    requires live != replayed
    requires Look(Moved(Moved(db, s, d), r, e), k) == Some(ListEntry([live]))
    requires Look(Moved(Moved(db, r, e), s, d), k) == Some(ListEntry([replayed]))
    ensures Clashes(RPopLPush(r, e), s, d)
  {
    MovedIsReplayed(db, r, e, 0);
    assert [live][0] != [replayed][0];
    Clash(db, RPopLPush(r, e), s, d, k);
  }

  lemma TurnedSourceClashes(s: Bytes, e: Bytes)
    requires e != s
    ensures Clashes(RPopLPush(s, e), s, s)
  {
    var db := Pair(s);
    var z, x := Moved(db, s, s), Moved(db, s, e);
    PairFacts();
    TurnedOnce(db, s, ["a"], "v");
    TurnLooks(db, s);
    MovedOut(z, s, e, ["v"], "a");
    MovedOut(db, s, e, ["a"], "v");
    TurnLooks(x, s);
    MoveClash(db, s, e, s, s, e, "a", "v");
  }

  lemma TurnBehindClashes(s: Bytes, d: Bytes)
    requires s != d
    ensures Clashes(RPopLPush(s, s), s, d)
  {
    var db := Pair(s);
    var z, x := Moved(db, s, d), Moved(db, s, s);
    PairFacts();
    MovedOut(db, s, d, ["a"], "v");
    TurnedOnce(z, s, [], "a");
    TurnLooks(z, s);
    TurnedOnce(db, s, ["a"], "v");
    TurnLooks(db, s);
    MovedOut(x, s, d, ["v"], "a");
    MoveClash(db, s, s, s, d, d, "v", "a");
  }

  /** Two moves from one source to different places: each place gets the other's element. */
  lemma SameSourceClashes(s: Bytes, d: Bytes, e: Bytes)
    requires e != d
    ensures Clashes(RPopLPush(s, e), s, d)
  {
    if s == d {
      TurnedSourceClashes(s, e);
    } else if e == s {
      TurnBehindClashes(s, d);
    } else {
      var db := Pair(s);
      var z, x := Moved(db, s, d), Moved(db, s, e);
      PairFacts();
      MovedOut(db, s, d, ["a"], "v");
      MoveLooks(db, s, d);
      MovedOut(z, s, e, [], "a");
      MoveLooks(z, s, e);
      MovedOut(db, s, e, ["a"], "v");
      MoveLooks(db, s, e);
      MovedOut(x, s, d, [], "a");
      MoveClash(db, s, e, s, d, d, "v", "a");
    }
  }

  lemma DestinationTurnClashes(s: Bytes, d: Bytes)
    requires s != d
    ensures Clashes(RPopLPush(d, d), s, d)
  {
    var db: Store := map[s := ListEntry([] + ["v"]), d := ListEntry([] + ["a"])];
    PairFacts();
    MovedOut(db, s, d, [], "v");
    var z, x := Moved(db, s, d), Moved(db, d, d);
    assert Look(z, d) == Some(ListEntry(["v"] + ["a"]));
    TurnedOnce(z, d, ["v"], "a");
    TurnedOnce(db, d, [], "a");
    TurnLooks(db, d);
    MovedIsReplayed(db, d, d, 0);
    MovedOut(x, s, d, [], "v");
    Clash(db, RPopLPush(d, d), s, d, d);
  }

  /** A move out of the destination takes the element that replay has not put there yet. */
  lemma FromDestinationClashes(s: Bytes, d: Bytes, e: Bytes)
    requires s != d
    ensures Clashes(RPopLPush(d, e), s, d)
  {
    if e == d {
      DestinationTurnClashes(s, d);
    } else {
      var db := Single(s, "v");
      PairFacts();
      SingleMoved(s, d, "v");
      MovedIsReplayed(db, d, e, 0);
      assert Moved(db, d, e) == db;
      MovedOut(Moved(db, s, d), d, e, [], "v");
      Clash(db, RPopLPush(d, e), s, d, d);
    }
  }

  /** One element each under two keys. */
  function Two(s: Bytes, r: Bytes): Store { map[s := ListEntry([] + ["v"]), r := ListEntry([] + ["a"])] }

  lemma PushTurnedClashes(r: Bytes, s: Bytes)
    requires r != s
    ensures Clashes(RPopLPush(r, s), s, s)
  {
    var db := Two(s, r);
    var z, x := Moved(db, s, s), Moved(db, r, s);
    PairFacts();
    MovedIsReplayed(db, r, s, 0);
    MovedOut(db, r, s, [], "a");
    TurnedOnce(db, s, [], "v");
    TurnLooks(db, s);
    MovedOut(z, r, s, [], "a");
    assert Look(x, s) == Some(ListEntry(["a"] + ["v"]));
    TurnedOnce(x, s, ["a"], "v");
    TurnClash(db, RPopLPush(r, s), s, ["a"] + ["v"], ["v"] + ["a"]);
  }

  /** Two moves to the head of one list come in the wrong order. */
  /** The last elements of two lists, moved one after the other to a key that is free. */
  lemma TwoMoves(db: Store, s: Bytes, v: Bytes, r: Bytes, u: Bytes, d: Bytes)
    requires r != s && r != d && s != d && d !in db
    requires Look(db, s) == Some(ListEntry([] + [v])) && Look(db, r) == Some(ListEntry([] + [u]))
    ensures MoveTail(db, s, d).Some? && MoveTail(Moved(db, s, d), r, d).Some?
    ensures Look(Moved(Moved(db, s, d), r, d), d) == Some(ListEntry([u] + [v]))
  {
    MovedOut(db, s, d, [], v);
    MoveLooks(db, s, d);
    MovedOut(Moved(db, s, d), r, d, [], u);
  }

  lemma SameDestinationClashes(r: Bytes, s: Bytes, d: Bytes)
    requires r != s && r != d
    ensures Clashes(RPopLPush(r, d), s, d)
  {
    if s == d {
      PushTurnedClashes(r, s);
    } else {
      var db := Two(s, r);
      PairFacts();
      MovedIsReplayed(db, r, d, 0);
      TwoMoves(db, s, "v", r, "a", d);
      TwoMoves(db, r, "a", s, "v", d);
      Clash(db, RPopLPush(r, d), s, d, d);
    }
  }

  /** Every other command does harm in some keyspace. */
  lemma OtherwiseClashes(c: Command, s: Bytes, d: Bytes)
    requires InRange(c) && !Passes(c, s, d)
    ensures Clashes(c, s, d)
  {
    match c {
      case Set(_, _) => OverwriteClashes(c, s, d);
      case SetEx(_, _, _) => OverwriteClashes(c, s, d);
      case Get(_) => GetClashes(s, d);
      case Del(k) => DelClashes(k, s, d);
      case LPush(_, x) => PushClashes(x, s, d);
      case RPush(_, x) => AppendClashes(x, s, d);
      case LPop(_) => PopClashes(c, s, d);
      case RPop(_) => PopClashes(c, s, d);
      case LRem(_, n, x) => RemoveClashes(n, x, s, d);
      case RPopLPush(r, e) =>
        if r == s {
          SameSourceClashes(s, d, e);
        } else if r == d {
          FromDestinationClashes(s, d, e);
        } else {
          SameDestinationClashes(r, s, d);
        }
    }
  }

  /**
    Overtaking the record of an RPOPLPUSH does no harm, whatever the keyspace and the clock, exactly for the commands
    that may overtake it. Only a deadline that replay cannot represent, which spoils any order, is set aside.
   */
  lemma HarmlessExactly(c: Command, s: Bytes, d: Bytes)
    requires InRange(c)
    ensures Harmless(c, s, d) <==> MayOvertake(c, s, d)
  {
    if MayOvertake(c, s, d) {
      forall db, now, later | OnlyStringsExpire(db) && MoveTail(db, s, d).Some? &&
                              RecordsReplayable(LiveCommand(Moved(db, s, d), c, now).log, later)
        ensures AgreesOvertaken(db, c, s, d, now, later)
      {
        MayOvertakeAgrees(db, c, s, d, now, later);
      }
    } else if c.LTrim? {
      TrimClashes(c.key, c.start, c.stop, s, d);
    } else {
      OtherwiseClashes(c, s, d);
      var db :| ClashesIn(db, c, s, d);
      assert RecordsReplayable(LiveCommand(Moved(db, s, d), c, 1).log, 0);
      assert !AgreesOvertaken(db, c, s, d, 1, 0);
    }
  }
}
