/** Laws of the list commands: trimming against ranging, rotation, and conservation of elements. */
module ListLaws {
  import opened Prelude
  import opened Protocol
  import opened Keyspace
  import opened Durability

  // ---- What a range is ----

  lemma {:induction false} BetweenNothing(items: seq<Bytes>, base: int, lo: int, hi: int)
    requires hi < base || base + |items| <= lo || hi < lo
    ensures Between(items, base, lo, hi) == []
  {
    if items != [] { BetweenNothing(items[1..], base + 1, lo, hi); }
  }

  lemma {:induction false} BetweenFrom(items: seq<Bytes>, base: int, lo: int, j: nat)
    requires lo <= base && j < |items|
    ensures Between(items, base, lo, base + j) == items[..j + 1]
  {
    var rest := items[1..];
    if j > 0 {
      BetweenFrom(rest, base + 1, lo, j - 1);
      assert [items[0]] + rest[..j] == items[..j + 1];
    } else {
      BetweenNothing(rest, base + 1, lo, base);
      assert [items[0]] + [] == items[..1];
    }
  }

  lemma {:induction false} BetweenIsSlice(items: seq<Bytes>, base: int, i: nat, j: nat)
    requires i <= j < |items|
    ensures Between(items, base, base + i, base + j) == items[i..j + 1]
  {
    var rest := items[1..];
    if i > 0 {
      BetweenIsSlice(rest, base + 1, i - 1, j - 1);
      assert rest[i - 1..j] == items[i..j + 1];
    } else if j > 0 {
      BetweenFrom(rest, base + 1, base, j - 1);
      assert [items[0]] + rest[..j] == items[0..j + 1];
    } else {
      BetweenNothing(rest, base + 1, base, base);
      assert [items[0]] + [] == items[0..1];
    }
  }

  /** Between two positions of the list lie the elements from the one to the other, both included. */
  lemma RangeIsSlice(items: seq<Bytes>, i: nat, j: nat)
    requires i <= j < |items|
    ensures Range(items, i, j) == items[i..j + 1]
  {
    BetweenIsSlice(items, 0, i, j);
  }

  /** An index below zero counts from the end: -1 is the last element. */
  lemma RangeFromTheEnd(items: seq<Bytes>, i: nat, other: int)
    requires i < |items|
    ensures Range(items, i - |items|, other) == Range(items, i, other)
    ensures Range(items, other, i - |items|) == Range(items, other, i)
  {
  }

  lemma {:induction false} BetweenSame(items: seq<Bytes>, base: int, lo: int, hi: int, lo': int, hi': int)
    requires lo == lo' || (lo <= base && lo' <= base)
    requires hi == hi' || (base + |items| - 1 <= hi && base + |items| - 1 <= hi')
    ensures Between(items, base, lo, hi) == Between(items, base, lo', hi')
  {
    if items != [] { BetweenSame(items[1..], base + 1, lo, hi, lo', hi'); }
  }

  /** Indices outside the list: a start before it is its start, a stop behind it its end; otherwise nothing is left. */
  lemma RangeOutside(items: seq<Bytes>, start: int, stop: int)
    ensures start < -|items| ==> Range(items, start, stop) == Range(items, 0, stop)
    ensures stop >= |items| > 0 ==> Range(items, start, stop) == Range(items, start, |items| - 1)
    ensures stop < -|items| || start >= |items| || items == [] ==> Range(items, start, stop) == []
    ensures 0 <= stop < start ==> Range(items, start, stop) == []
  {
    var lo, hi := Norm(start, |items|), Norm(stop, |items|);
    if start < -|items| { BetweenSame(items, 0, lo, hi, 0, hi); }
    if stop >= |items| > 0 { BetweenSame(items, 0, lo, hi, lo, |items| - 1); }
    if hi < 0 || |items| <= lo || hi < lo { BetweenNothing(items, 0, lo, hi); }
  }

  /** What LRANGE answers: each element of the range as a bulk string, in order. */
  lemma RangeIsAnswered(db: Store, k: Bytes, start: int, stop: int, now: nat)
    requires k in db && db[k].value.List?
    ensures var range := Range(db[k].value.items, start, stop);
            var r := LiveCommand(db, LRange(k, start, stop), now);
            && r.db == db && r.log == [] && r.reply.Array? && |r.reply.elements| == |range|
            && forall i :: 0 <= i < |range| ==> r.reply.elements[i] == Bulk(range[i])
  {
    PutSame(db, k);
  }

  /** An LTRIM never comes back exactly when both indices lie, in order, beyond one place before the list. */
  lemma TrimHangsBefore(len: nat, start: int, stop: int)
    ensures TrimHangs(len, start, stop) <==> start <= stop < -1 - len
  {
  }

  /** What an LTRIM leaves between two positions, counted from the front or from the end. */
  lemma TrimLeavesSlice(db: Store, k: Bytes, i: nat, j: nat, now: nat)
    requires k in db && db[k].value.List? && i <= j < |db[k].value.items|
    ensures var items := db[k].value.items;
            var after := LiveCommand(db, LTrim(k, i, j), now);
            && after == Result(db[k := db[k].(value := List(items[i..j + 1]))], [LTrim(k, i, j)], Okay)
            && LiveCommand(db, LTrim(k, i - |items|, j), now).db == after.db
            && LiveCommand(db, LTrim(k, i, j - |items|), now).db == after.db
            && LiveCommand(db, LTrim(k, i - |items|, j - |items|), now).db == after.db
  {
    var items := db[k].value.items;
    RangeIsSlice(items, i, j);
    RangeFromTheEnd(items, i, j);
    RangeFromTheEnd(items, j, i);
    RangeFromTheEnd(items, i, j - |items|);
    assert items[i..j + 1] != [];
  }

  /** Without a list there is nothing to trim or to list. */
  lemma RangeFindsNothing(db: Store, k: Bytes, start: int, stop: int, now: nat)
    requires k in db ==> !db[k].value.List?
    ensures LiveCommand(db, LTrim(k, start, stop), now) == Result(db, [], if k in db then WRONG_KIND else Okay)
    ensures LiveCommand(db, LRange(k, start, stop), now) == Result(db, [], if k in db then WRONG_KIND else Array([]))
  {
    PutSame(db, k);
  }

  /** What it leaves otherwise: indices outside the list act as for LRANGE, and with nothing left the key goes. */
  lemma TrimOutside(db: Store, k: Bytes, start: int, stop: int, now: nat)
    requires k in db && db[k].value.List? && !(start <= stop < -1 - |db[k].value.items|)
    ensures var n := |db[k].value.items|;
            var after := LiveCommand(db, LTrim(k, start, stop), now).db;
            && (start < -n && !(stop < -1 - n) ==> after == LiveCommand(db, LTrim(k, 0, stop), now).db)
            && (stop >= n > 0 ==> after == LiveCommand(db, LTrim(k, start, n - 1), now).db)
            && (stop < -n || start >= n || 0 <= stop < start || n == 0 ==> after == db - {k})
  {
    var items := db[k].value.items;
    RangeOutside(items, start, stop);
    TrimHangsBefore(|items|, start, stop);
  }

  // ---- LTRIM ----

  /** The list after `n` rounds of the tail loop; popping from an empty list does nothing. */
  function AfterPops(items: seq<Bytes>, n: nat): seq<Bytes> {
    if n == 0 then items
    else
      var rest := AfterPops(items, n - 1);
      if rest == [] then [] else rest[..|rest| - 1]
  }

  lemma {:induction false} PopsShorten(items: seq<Bytes>, n: nat)
    ensures |AfterPops(items, n)| == if n <= |items| then |items| - n else 0
  {
    if n > 0 { PopsShorten(items, n - 1); }
  }

  /** The exit test of the tail loop, `len <= e + 1`, after `n` rounds. */
  predicate TailLoopExits(items: seq<Bytes>, stop: int, n: nat) {
    var e := Norm(stop, |items|);
    var last := if e < |items| - 1 then e else |items| - 1;
    |AfterPops(items, n)| <= last + 1
  }

  /** An LTRIM that enters its loops leaves the first one exactly when the normalised stop is at least -1. */
  lemma TrimTerminates(items: seq<Bytes>, start: int, stop: int)
    requires Norm(start, |items|) <= Norm(stop, |items|) && Norm(start, |items|) < |items|
    ensures (exists n :: TailLoopExits(items, stop, n)) <==> Norm(stop, |items|) >= -1
    ensures TrimHangs(|items|, start, stop) <==> !exists n :: TailLoopExits(items, stop, n)
  {
    PopsShorten(items, |items|);
    if Norm(stop, |items|) >= -1 {
      assert TailLoopExits(items, stop, |items|);
    }
  }

  /** After an LTRIM that returns, the whole list is what LRANGE would have returned; empty lists are removed. */
  lemma TrimIsRange(db: Store, k: Bytes, start: int, stop: int, now: nat)
    requires Look(db, k).Some? && db[k].value.List? && !TrimHangs(|db[k].value.items|, start, stop)
    ensures var after := LiveCommand(db, LTrim(k, start, stop), now).db;
            && RangeReply(Look(after, k), 0, -1) == RangeReply(Look(db, k), start, stop)
            && (k !in after <==> RangeReply(Look(db, k), start, stop) == Array([]))
            && forall j :: j != k ==> Look(after, j) == Look(db, j)
  {
    var items := db[k].value.items;
    var kept := Range(items, start, stop);
    BetweenAll(kept, 0, 0, |kept| - 1);
    assert kept == [] <==> |BulkArray(kept).elements| == 0;
    assert BulkArray([]) == Array([]);
  }

  // ---- RPOPLPUSH ----

  /** RPOPLPUSH of a list onto itself turns it by one place. */
  lemma MoveOntoItselfRotates(db: Store, k: Bytes, now: nat)
    requires k in db && db[k].value.List? && db[k].value.items != []
    ensures var items := db[k].value.items;
            var last := items[|items| - 1];
            LiveCommand(db, RPopLPush(k, k), now) ==
            Result(db[k := db[k].(value := List([last] + items[..|items| - 1]))], [RPopLPush(k, k)], Bulk(last))
  {
  }

  lemma TurnOnce(items: seq<Bytes>, n: nat)
    requires 0 < n <= |items|
    ensures var m := |items| - n;
            var before := items[m + 1..] + items[..m + 1];
            [before[|items| - 1]] + before[..|items| - 1] == items[m..] + items[..m]
  {
    var m := |items| - n;
    var before := items[m + 1..] + items[..m + 1];
    assert before[|items| - 1] == items[m] && before[..|items| - 1] == items[m + 1..] + items[..m];
    assert items[m..] == [items[m]] + items[m + 1..];
    AppendAssociates([items[m]], items[m + 1..], items[..m]);
  }

  /** The keyspace with the list under `k` turned by `n` places. */
  function Turned(db: Store, k: Bytes, n: nat): Store
    requires k in db && db[k].value.List? && n <= |db[k].value.items|
  {
    var items := db[k].value.items;
    var m := |items| - n;
    db[k := db[k].(value := List(items[m..] + items[..m]))]
  }

  lemma TurnedNext(db: Store, k: Bytes, n: nat, now: nat)
    requires k in db && db[k].value.List? && 0 < n <= |db[k].value.items|
    ensures LiveCommand(Turned(db, k, n - 1), RPopLPush(k, k), now).db == Turned(db, k, n)
  {
    TurnOnce(db[k].value.items, n);
    MoveOntoItselfRotates(Turned(db, k, n - 1), k, now);
  }

  lemma NoTurnFullTurn(db: Store, k: Bytes)
    requires k in db && db[k].value.List?
    ensures Turned(db, k, 0) == db == Turned(db, k, |db[k].value.items|)
  {
    var items := db[k].value.items;
    assert items[|items|..] + items[..|items|] == items && items[0..] + items[..0] == items;
  }

  lemma AtLeast(len: nat, d: nat)
    requires d > 0
    ensures len * d >= len
  {
  }

  lemma RemainderIs(len: nat, n: nat, p: int, a: nat, q: int, b: nat)
    requires n == len * p + a == len * q + b && a < len && b < len
    ensures a == b
  {
    assert len * (p - q) == b - a;
    if p > q {
      AtLeast(len, p - q);
    } else if p < q {
      assert len * (q - p) == a - b;
      AtLeast(len, q - p);
    }
  }

  lemma ModuloNext(n: nat, len: nat)
    requires len > 0
    ensures (n + 1) % len == if n % len + 1 == len then 0 else n % len + 1
  {
    var q, r := n / len, n % len;
    RemainderIs(len, n + 1, (n + 1) / len, (n + 1) % len, if r + 1 == len then q + 1 else q,
                if r + 1 == len then 0 else r + 1);
  }

  lemma TurnedStep(db: Store, k: Bytes, n: nat, now: nat)
    requires k in db && db[k].value.List? && db[k].value.items != []
    ensures var len := |db[k].value.items|;
            LiveCommand(Turned(db, k, n % len), RPopLPush(k, k), now).db == Turned(db, k, (n + 1) % len)
  {
    var len := |db[k].value.items|;
    ModuloNext(n, len);
    NoTurnFullTurn(db, k);
    TurnedNext(db, k, n % len + 1, now);
  }

  /** Any number of moves of a list onto itself turns it by that many places, and full turns restore it. */
  lemma {:induction false} MovesOntoItselfRotate(db: Store, k: Bytes, run: seq<Timed>)
    requires k in db && db[k].value.List? && forall t :: t in run ==> t.command == RPopLPush(k, k)
    ensures var len := |db[k].value.items|;
            LiveRun(db, run).db == if len == 0 then db else Turned(db, k, |run| % len)
    ensures var len := |db[k].value.items|;
            len == 0 || |run| % len == 0 ==> LiveRun(db, run).db == db
  {
    NoTurnFullTurn(db, k);
    if run != [] {
      var front, last := run[..|run| - 1], run[|run| - 1];
      assert last in run && forall t :: t in front ==> t in run;
      MovesOntoItselfRotate(db, k, front);
      if db[k].value.items != [] { TurnedStep(db, k, |front|, last.now); }
    }
  }

  // ---- Conservation ----

  predicate ListCommand(c: Command) { c.LPush? || c.RPush? || c.LPop? || c.RPop? || c.LRem? || c.RPopLPush? }

  /** How often the cell's list holds `x`. */
  function Copies(cell: Cell, x: Bytes): nat {
    match cell
    case Some(Entry(List(items), _)) => multiset(items)[x]
    case _ => 0
  }

  /** How often the lists under the given keys hold `x`. */
  function Stored(db: Store, keys: seq<Bytes>, x: Bytes): nat {
    if keys == [] then 0 else Copies(Look(db, keys[0]), x) + Stored(db, keys[1..], x)
  }

  lemma {:induction false} StoredElsewhere(db: Store, keys: seq<Bytes>, k: Bytes, cell: Cell, x: Bytes)
    requires k !in keys
    ensures Stored(Put(db, k, cell), keys, x) == Stored(db, keys, x)
  {
    if keys != [] {
      StoredElsewhere(db, keys[1..], k, cell, x);
      PutFrame(db, k, cell);
      assert keys[0] in keys;
    }
  }

  lemma {:induction false} StoredPut(db: Store, keys: seq<Bytes>, k: Bytes, cell: Cell, x: Bytes)
    requires Distinct(keys) && k in keys
    ensures Stored(Put(db, k, cell), keys, x) + Copies(Look(db, k), x) == Stored(db, keys, x) + Copies(cell, x)
  {
    PutFrame(db, k, cell);
    var rest := keys[1..];
    if keys[0] == k {
      StoredElsewhere(db, rest, k, cell, x);
    } else {
      StoredPut(db, rest, k, cell, x);
    }
  }

  function One(b: bool): nat { if b then 1 else 0 }

  /** A push that was answered with the new length. */
  predicate Pushes(c: Command, reply: Reply, x: Bytes) { (c.LPush? || c.RPush?) && reply.Number? && c.value == x }

  /** A pop answered with the value, or an LREM answered with 1. */
  predicate Takes(c: Command, reply: Reply, x: Bytes) {
    ((c.LPop? || c.RPop?) && reply == Bulk(x)) || (c.LRem? && reply == Number(1) && c.value == x)
  }

  /** RPOPLPUSH loses the value it moves when its destination holds another type. */
  predicate Drops(db: Store, c: Command, reply: Reply, x: Bytes) {
    c.RPopLPush? && reply == Bulk(x) && c.destination in db && !db[c.destination].value.List?
  }

  lemma {:induction false} RemoveFirstCopies(items: seq<Bytes>, v: Bytes, x: Bytes)
    requires v in items
    ensures multiset(RemoveFirst(items, v))[x] + One(x == v) == multiset(items)[x]
  {
    assert items == [items[0]] + items[1..];
    if items[0] != v { RemoveFirstCopies(items[1..], v, x); }
  }

  lemma FrontCopies(items: seq<Bytes>, x: Bytes)
    requires items != []
    ensures multiset(items[1..])[x] + One(x == items[0]) == multiset(items)[x]
    ensures var n := |items| - 1; multiset(items[..n])[x] + One(x == items[n]) == multiset(items)[x]
  {
    assert items == [items[0]] + items[1..];
    assert items == items[..|items| - 1] + [items[|items| - 1]];
  }

  lemma PushConserves(cell: Cell, c: Command, x: Bytes)
    requires c.LPush? || c.RPush?
    ensures var o := LiveCell(cell, c, 0); Copies(o.cell, x) == Copies(cell, x) + One(Pushes(c, o.reply, x))
  {
  }

  lemma PopConserves(cell: Cell, c: Command, x: Bytes)
    requires c.LPop? || c.RPop?
    ensures var o := LiveCell(cell, c, 0); Copies(o.cell, x) + One(o.reply == Bulk(x)) == Copies(cell, x)
  {
    if cell.Some? && cell.value.value.List? && cell.value.value.items != [] {
      FrontCopies(cell.value.value.items, x);
    }
  }

  lemma RemConserves(cell: Cell, c: Command, x: Bytes)
    requires c.LRem?
    ensures var o := LiveCell(cell, c, 0);
            Copies(o.cell, x) + One(o.reply == Number(1) && c.value == x) == Copies(cell, x)
  {
    if cell.Some? && cell.value.value.List? && c.value in cell.value.value.items {
      RemoveFirstCopies(cell.value.value.items, c.value, x);
    }
  }

  lemma PushedFrontCopies(cell: Cell, v: Bytes, x: Bytes)
    ensures Copies(PushedFront(cell, v), x) + One(v == x && cell.Some? && !cell.value.value.List?) ==
            Copies(cell, x) + One(v == x)
  {
  }

  lemma MoveConserves(db: Store, keys: seq<Bytes>, s: Bytes, d: Bytes, x: Bytes)
    requires Distinct(keys) && s in keys && d in keys && MoveTail(db, s, d).Some?
    ensures var (v, after) := MoveTail(db, s, d).value;
            Stored(after, keys, x) + One(v == x && d in db && !db[d].value.List?) == Stored(db, keys, x)
  {
    var items := db[s].value.items;
    var v := items[|items| - 1];
    var cell := Some(Entry(List(items[..|items| - 1]), db[s].expiresAt));
    var popped := Put(db, s, cell);
    FrontCopies(items, x);
    StoredPut(db, keys, s, cell, x);
    StoredPut(popped, keys, d, PushedFront(Look(popped, d), v), x);
    PushedFrontCopies(Look(popped, d), v, x);
  }

  /** Time does not matter to the list commands. */
  lemma ListCommandsAreTimeless(db: Store, c: Command, now: nat)
    requires ListCommand(c)
    ensures LiveCommand(db, c, now) == LiveCommand(db, c, 0)
  {
  }

  /** The keys hold lists only: whoever touches one of them is a list command that stays among them. */
  predicate ListsOnly(keys: seq<Bytes>, c: Command) {
    (exists k :: k in KeysOf(c) && k in keys) ==> ListCommand(c) && forall k :: k in KeysOf(c) ==> k in keys
  }

  lemma ForeignConserves(db: Store, keys: seq<Bytes>, c: Command, now: nat, x: Bytes)
    requires forall k :: k in KeysOf(c) ==> k !in keys
    ensures Stored(LiveCommand(db, c, now).db, keys, x) == Stored(db, keys, x)
  {
    if SingleKey(c) {
      assert c.key in KeysOf(c);
      StoredElsewhere(db, keys, c.key, LiveCell(Look(db, c.key), c, now).cell, x);
    } else if c.RPopLPush? && MoveTail(db, c.source, c.destination).Some? {
      var items := db[c.source].value.items;
      var v := items[|items| - 1];
      var cell := Some(Entry(List(items[..|items| - 1]), db[c.source].expiresAt));
      var popped := Put(db, c.source, cell);
      assert c.source in KeysOf(c) && c.destination in KeysOf(c);
      StoredElsewhere(db, keys, c.source, cell, x);
      StoredElsewhere(popped, keys, c.destination, PushedFront(Look(popped, c.destination), v), x);
    }
  }

  /** What one command of a run takes away from, and adds to, the lists under the keys. */
  predicate Gone(db: Store, keys: seq<Bytes>, t: Timed, x: Bytes) {
    var c, reply := t.command, LiveCommand(db, t.command, t.now).reply;
    (SingleKey(c) && c.key in keys && Takes(c, reply, x)) ||
    (c.RPopLPush? && c.source in keys && Drops(db, c, reply, x))
  }

  predicate Came(db: Store, keys: seq<Bytes>, t: Timed, x: Bytes) {
    SingleKey(t.command) && t.command.key in keys && Pushes(t.command, LiveCommand(db, t.command, t.now).reply, x)
  }

  lemma OwnConserves(db: Store, keys: seq<Bytes>, t: Timed, x: Bytes)
    requires Distinct(keys) && ListCommand(t.command) && forall k :: k in KeysOf(t.command) ==> k in keys
    ensures Stored(LiveCommand(db, t.command, t.now).db, keys, x) + One(Gone(db, keys, t, x)) ==
            Stored(db, keys, x) + One(Came(db, keys, t, x))
  {
    var c := t.command;
    ListCommandsAreTimeless(db, c, t.now);
    if c.RPopLPush? {
      assert c.source in KeysOf(c) && c.destination in KeysOf(c);
      if MoveTail(db, c.source, c.destination).Some? {
        MoveConserves(db, keys, c.source, c.destination, x);
      }
    } else {
      assert c.key in KeysOf(c);
      var cell := Look(db, c.key);
      StoredPut(db, keys, c.key, LiveCell(cell, c, 0).cell, x);
      if c.LPush? || c.RPush? {
        PushConserves(cell, c, x);
      } else if c.LRem? {
        RemConserves(cell, c, x);
      } else {
        PopConserves(cell, c, x);
      }
    }
  }

  lemma StepConserves(db: Store, keys: seq<Bytes>, t: Timed, x: Bytes)
    requires Distinct(keys) && ListsOnly(keys, t.command)
    ensures Stored(LiveCommand(db, t.command, t.now).db, keys, x) + One(Gone(db, keys, t, x)) ==
            Stored(db, keys, x) + One(Came(db, keys, t, x))
  {
    if exists k :: k in KeysOf(t.command) && k in keys {
      OwnConserves(db, keys, t, x);
    } else {
      ForeignConserves(db, keys, t.command, t.now, x);
      assert SingleKey(t.command) ==> t.command.key in KeysOf(t.command);
      assert t.command.RPopLPush? ==> t.command.source in KeysOf(t.command);
    }
  }

  /** How often the run popped, removed or dropped `x`, and how often it pushed `x`. */
  function Taken(db: Store, keys: seq<Bytes>, run: seq<Timed>, x: Bytes): nat {
    if run == [] then 0
    else
      var front := run[..|run| - 1];
      Taken(db, keys, front, x) + One(Gone(LiveRun(db, front).db, keys, run[|run| - 1], x))
  }

  function Pushed(db: Store, keys: seq<Bytes>, run: seq<Timed>, x: Bytes): nat {
    if run == [] then 0
    else
      var front := run[..|run| - 1];
      Pushed(db, keys, front, x) + One(Came(LiveRun(db, front).db, keys, run[|run| - 1], x))
  }

  /** Over any run: every value pushed is still in a list, or was popped, removed by LREM, or dropped, as often. */
  lemma {:induction false} ElementsAreConserved(db: Store, keys: seq<Bytes>, run: seq<Timed>, x: Bytes)
    requires Distinct(keys) && forall t :: t in run ==> ListsOnly(keys, t.command)
    ensures Stored(LiveRun(db, run).db, keys, x) + Taken(db, keys, run, x) ==
            Stored(db, keys, x) + Pushed(db, keys, run, x)
  {
    if run != [] {
      var front, last := run[..|run| - 1], run[|run| - 1];
      assert last in run;
      ElementsAreConserved(db, keys, front, x);
      StepConserves(LiveRun(db, front).db, keys, last, x);
    }
  }
}
