/** Records on different keys can be replayed in any order. */
module Commuting {
  import opened Prelude
  import opened Protocol
  import opened Keyspace

  ghost predicate AgreeOn(a: Store, b: Store, keys: set<Bytes>) { forall k :: k in keys ==> Look(a, k) == Look(b, k) }

  lemma MoveFrame(a: Store, b: Store, s: Bytes, d: Bytes)
    requires Look(a, s) == Look(b, s) && Look(a, d) == Look(b, d)
    ensures match (MoveTail(a, s, d), MoveTail(b, s, d))
            case (Some((v, x)), Some((w, y))) =>
              v == w && AgreeOn(x, y, {s, d}) && forall k :: k != s && k != d ==> Look(x, k) == Look(a, k)
            case (None, None) => true
            case _ => false
  {
  }

  /** A record reads and writes only its own keys. */
  lemma ReplayFrame(a: Store, b: Store, c: Command, later: nat)
    requires Replayable(c, later) && AgreeOn(a, b, KeysOf(c))
    ensures var x, y := ReplayCommand(a, c, later), ReplayCommand(b, c, later);
            && x.Some? && y.Some? && AgreeOn(x.value, y.value, KeysOf(c))
            && forall k :: k !in KeysOf(c) ==> Look(x.value, k) == Look(a, k)
  {
    if SingleKey(c) {
      assert Look(a, c.key) == Look(b, c.key);
      var cell := ReplayCell(Look(a, c.key), c, later);
      PutFrame(a, c.key, cell);
      PutFrame(b, c.key, cell);
    } else if c.RPopLPush? {
      MoveFrame(a, b, c.source, c.destination);
    }
  }

  function Replayed(db: Store, c: Command, later: nat): Store
    requires Replayable(c, later)
  {
    ReplayCommand(db, c, later).value
  }

  /** Before or after a record on other keys, a record leaves the same on its own keys. */
  lemma OwnKeysDecide(db: Store, c: Command, d: Command, later: nat, k: Bytes)
    requires Replayable(c, later) && Replayable(d, later) && KeysOf(c) !! KeysOf(d)
    ensures k in KeysOf(c) ==>
              && Look(Replayed(Replayed(db, c, later), d, later), k) == Look(Replayed(db, c, later), k)
              && Look(Replayed(Replayed(db, d, later), c, later), k) == Look(Replayed(db, c, later), k)
    ensures k !in KeysOf(c) && k !in KeysOf(d) ==> Look(Replayed(Replayed(db, c, later), d, later), k) == Look(db, k)
  {
    var dc, dd := Replayed(db, c, later), Replayed(db, d, later);
    ReplayFrame(db, db, c, later);
    ReplayFrame(db, db, d, later);
    ReplayFrame(dc, dc, d, later);
    ReplayFrame(dd, db, c, later);
  }

  lemma TwoReplay(db: Store, c: Command, d: Command, later: nat)
    requires Replayable(c, later) && Replayable(d, later)
    ensures ReplayAll(db, [c, d], later) == Some(Replayed(Replayed(db, c, later), d, later))
  {
    assert [c, d][1..] == [d];
    ReplayOne(Replayed(db, c, later), d, later);
  }

  lemma ReplayCommutes(db: Store, c: Command, d: Command, later: nat)
    requires Replayable(c, later) && Replayable(d, later) && KeysOf(c) !! KeysOf(d)
    ensures ReplayAll(db, [c, d], later) == ReplayAll(db, [d, c], later)
  {
    var x, y := Replayed(Replayed(db, c, later), d, later), Replayed(Replayed(db, d, later), c, later);
    forall k
      ensures Look(x, k) == Look(y, k)
    {
      OwnKeysDecide(db, c, d, later, k);
      OwnKeysDecide(db, d, c, later, k);
    }
    SameStore(x, y);
    TwoReplay(db, c, d, later);
    TwoReplay(db, d, c, later);
  }

  /** A record moves to the end of a log past records on other keys. */
  lemma {:induction false} ReplayLater(db: Store, c: Command, b: seq<Command>, later: nat)
    requires Replayable(c, later)
    requires forall d :: d in b ==> Replayable(d, later) && KeysOf(c) !! KeysOf(d)
    ensures ReplayAll(db, [c] + b, later) == ReplayAll(db, b + [c], later)
    decreases |b|
  {
    if b == [] {
      assert [c] + b == b + [c];
    } else {
      var d, rest := b[0], b[1..];
      ReplayCommutes(db, c, d, later);
      assert [c] + b == [c, d] + rest;
      ReplayAppend(db, [c, d], rest, later);
      assert [d] + ([c] + rest) == [d, c] + rest;
      ReplayAppend(db, [d, c], rest, later);
      ReplayAppend(db, [d], [c] + rest, later);
      ReplayFrame(db, db, d, later);
      ReplayOne(db, d, later);
      ReplayLater(ReplayCommand(db, d, later).value, c, rest, later);
      ReplayAppend(db, [d], rest + [c], later);
      assert b + [c] == [d] + (rest + [c]);
    }
  }
}
