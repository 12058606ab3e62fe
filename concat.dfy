/**
 * `Concat`: plays the items of a signal list one after another. A cursor `currentI`
 * names the item being read; an item whose read returns 0 counts as exhausted and the
 * cursor moves past it. `pos` and `len` are sums over the items.
 *
 * The list is a scripted object: each item has a position, a length and a queue of
 * what its reads produce. Only sample COUNTS are modelled; the samples themselves and
 * the caller's buffer (of which only the length matters) are not.
 */
module ConcatSignal {
  import opened Outcomes
  import opened Ints
  import opened PhonicErrors
  import opened SignalSpecs

  /**
   * One item of the list. Each entry of `queue` is either a chunk of samples the item
   * has ready (`Ok(k)`) or the error its next read fails with. An item whose queue is
   * empty is at its end.
   */
  datatype Item = Item(pos: nat, len: nat, queue: seq<Result<nat, PhonicError>>)

  /** An item after one read, and what the read returned. */
  datatype ItemRead = ItemRead(item: Item, result: Result<nat, PhonicError>)

  /** The list after a `Concat` read, the cursor after it, and what it returned. */
  datatype ReadOutcome = ReadOutcome(items: seq<Item>, cursor: nat, result: Result<nat, PhonicError>)

  /**
   * One read of an item into a buffer of `bufLen` samples: it takes what fits from the
   * head chunk and keeps the rest for the next read; an error entry is consumed and
   * returned.
   */
  function ReadItem(it: Item, bufLen: nat): (r: ItemRead)
    ensures r.result.Ok? ==> r.result.value <= bufLen && r.item.pos == it.pos + r.result.value
    ensures r.item.len == it.len
    ensures r.result == Ok(0) <==> it.queue == [] || it.queue[0] == Ok(0) || (it.queue[0].Ok? && bufLen == 0)
    ensures r.result.Err? <==> it.queue != [] && it.queue[0].Err?
  {
    if it.queue == [] then ItemRead(it, Ok(0))
    else match it.queue[0]
      case Err(e) => ItemRead(it.(queue := it.queue[1..]), Err(e))
      case Ok(k) =>
        var n := Min(k, bufLen);
        var rest := if n == k then it.queue[1..] else [Ok(k - n)] + it.queue[1..];
        ItemRead(it.(pos := it.pos + n, queue := rest), Ok(n))
  }

  /** The list whose items `Concat` plays: what `spec()` returns, and the items. */
  class SignalList {
    const spec: Result<SignalSpec, PhonicError>
    var items: seq<Item>

    constructor (spec: Result<SignalSpec, PhonicError>, items: seq<Item>)
      ensures this.spec == spec && this.items == items
    {
      this.spec := spec;
      this.items := items;
    }

    /** `read(i, buf)`: reads item `i`, leaving every other item as it was. */
    method Read(i: nat, bufLen: nat) returns (r: Result<nat, PhonicError>)
      requires i < |items|
      modifies this
      ensures items == old(items)[i := ReadItem(old(items)[i], bufLen).item]
      ensures r == ReadItem(old(items)[i], bufLen).result
    {
      var step := ReadItem(items[i], bufLen);
      items := items[i := step.item];
      r := step.result;
    }
  }

  // ---------------------------------------------------------------------------
  // The read loop as a function
  // ---------------------------------------------------------------------------

  /**
   * What `Concat::read` does from cursor `cur`: items that return 0 are stepped over,
   * the first nonzero count or the first error ends the read, and `Ok(0)` means every
   * item is exhausted.
   */
  function ReadSpec(items: seq<Item>, cur: nat, bufLen: nat): (o: ReadOutcome)
    requires cur <= |items|
    ensures |o.items| == |items| && cur <= o.cursor <= |items|
    ensures o.result == Ok(0) <==> o.cursor == |items|
    ensures o.result.Ok? ==> o.result.value <= bufLen
    ensures forall j :: 0 <= j < cur ==> o.items[j] == items[j]
    ensures forall j :: o.cursor < j < |items| ==> o.items[j] == items[j]
    ensures forall j :: cur <= j < o.cursor ==>
      ReadItem(items[j], bufLen).result == Ok(0) && o.items[j] == ReadItem(items[j], bufLen).item
    ensures o.cursor < |items| ==>
      o.result == ReadItem(items[o.cursor], bufLen).result && o.items[o.cursor] == ReadItem(items[o.cursor], bufLen).item
    decreases |items| - cur
  {
    if cur == |items| then ReadOutcome(items, cur, Ok(0))
    else
      var step := ReadItem(items[cur], bufLen);
      var next := items[cur := step.item];
      if step.result == Ok(0) then
        assert forall j :: cur < j < |items| ==> next[j] == items[j];
        ReadSpec(next, cur + 1, bufLen)
      else ReadOutcome(next, cur, step.result)
  }

  // ---------------------------------------------------------------------------
  // Sums for pos and len
  // ---------------------------------------------------------------------------

  /** The sum of a sequence of counts. */
  function Total(xs: seq<nat>): (s: nat)
    ensures forall i :: 0 <= i < |xs| ==> xs[i] <= s
    ensures s == 0 <==> forall i :: 0 <= i < |xs| ==> xs[i] == 0
  {
    if xs == [] then 0 else Total(xs[..|xs| - 1]) + xs[|xs| - 1]
  }

  function Positions(items: seq<Item>): seq<nat> {
    seq(|items|, i requires 0 <= i < |items| => items[i].pos)
  }

  function Lens(items: seq<Item>): seq<nat> {
    seq(|items|, i requires 0 <= i < |items| => items[i].len)
  }

  lemma {:induction false} TotalAppend(a: seq<nat>, b: seq<nat>)
    ensures Total(a + b) == Total(a) + Total(b)
    decreases |b|
  {
    if b == [] {
      assert a + b == a;
    } else {
      var b' := b[..|b| - 1];
      assert (a + b)[..|a + b| - 1] == a + b';
      assert (a + b)[|a + b| - 1] == b[|b| - 1];
      TotalAppend(a, b');
    }
  }

  /** The length of a list split in two is the sum of the lengths of its parts. */
  lemma LenOfSplit(a: seq<Item>, b: seq<Item>)
    ensures Total(Lens(a + b)) == Total(Lens(a)) + Total(Lens(b))
  {
    assert Lens(a + b) == Lens(a) + Lens(b);
    TotalAppend(Lens(a), Lens(b));
  }

  /** Lengths 100, 0 and 50 give a concatenated length of 150. */
  lemma LenExample()
    ensures Total(Lens([Item(0, 100, []), Item(0, 0, []), Item(0, 50, [])])) == 150
  {
    var items := [Item(0, 100, []), Item(0, 0, []), Item(0, 50, [])];
    assert Lens(items) == [100, 0, 50];
    assert [100, 0, 50][..2] == [100, 0];
    assert [100, 0][..1] == [100];
  }

  // ---------------------------------------------------------------------------
  // Concat
  // ---------------------------------------------------------------------------

  class Concat {
    const inner: SignalList
    const spec: SignalSpec
    var currentI: nat

    ghost predicate Valid()
      reads this, inner
    {
      currentI <= |inner.items|
    }

    /** `Concat::new`: the list's spec is captured, or its error passed on; the cursor starts at 0. */
    static method New(inner: SignalList) returns (r: Result<Concat, PhonicError>)
      ensures inner.spec.Err? ==> r == Err(inner.spec.error)
      ensures inner.spec.Ok? ==>
        r.Ok? && fresh(r.value) && r.value.inner == inner && r.value.spec == inner.spec.value
        && r.value.currentI == 0 && r.value.Valid()
    {
      if inner.spec.Err? {
        return Err(inner.spec.error);
      }
      var c := new Concat.Init(inner, inner.spec.value);
      return Ok(c);
    }

    constructor Init(inner: SignalList, spec: SignalSpec)
      ensures this.inner == inner && this.spec == spec && currentI == 0
    {
      this.inner := inner;
      this.spec := spec;
      currentI := 0;
    }

    /** `pos`: the positions of items `0..=currentI` added up. */
    function Pos(): (p: nat)
      reads this, inner
      requires Valid() && currentI < |inner.items|
      ensures p == Total(Positions(inner.items[..currentI + 1]))
      ensures forall j :: 0 <= j <= currentI ==> inner.items[j].pos <= p
    {
      PosAsWritten(inner.items, currentI)
    }

    /** `len`: the lengths of all items added up. */
    function Len(): (l: nat)
      reads this, inner
      ensures l == Total(Lens(inner.items))
      ensures forall j :: 0 <= j < |inner.items| ==> inner.items[j].len <= l
    {
      var ls := Lens(inner.items);
      assert forall j :: 0 <= j < |inner.items| ==> ls[j] == inner.items[j].len;
      Total(ls)
    }

    /** `read`: the loop over items from the cursor, as `ReadSpec` describes it. */
    method Read(bufLen: nat) returns (r: Result<nat, PhonicError>)
      requires Valid()
      modifies this, inner
      ensures Valid()
      ensures ReadSpec(old(inner.items), old(currentI), bufLen) == ReadOutcome(inner.items, currentI, r)
    {
      while currentI < |inner.items|
        invariant Valid()
        invariant old(currentI) <= currentI
        invariant ReadSpec(inner.items, currentI, bufLen) == ReadSpec(old(inner.items), old(currentI), bufLen)
        decreases |inner.items| - currentI
      {
        ghost var before := inner.items;
        var n := inner.Read(currentI, bufLen);
        if n.Err? {
          return Err(n.error);
        }
        if n.value == 0 {
          currentI := currentI + 1;
          continue;
        }
        return Ok(n.value);
      }
      return Ok(0);
    }
  }

  // ---------------------------------------------------------------------------
  // Findings
  // ---------------------------------------------------------------------------

  /**
   * A read into an empty buffer gets 0 from every item, and the loop takes each 0 for
   * the end of that item: one item with 5 samples ready is stepped over, and a later
   * read with room for 10 samples reports the end of the list with the 5 unread.
   */
  lemma EmptyBufferSkipsData()
    ensures var o := ReadSpec([Item(0, 5, [Ok(5)])], 0, 0);
      o.cursor == 1 && o.items == [Item(0, 5, [Ok(5)])] && o.result == Ok(0)
      && ReadSpec(o.items, o.cursor, 10).result == Ok(0)
  {
    var it := Item(0, 5, [Ok(5)]);
    assert [Ok(5 - 0)] + it.queue[1..] == [Ok(5)];
    assert ReadItem(it, 0) == ItemRead(it, Ok(0));
  }

  /** The read the loop evidently means: an empty buffer reads nothing and moves no cursor. */
  function ReadSpecFixed(items: seq<Item>, cur: nat, bufLen: nat): (o: ReadOutcome)
    requires cur <= |items|
    ensures bufLen == 0 ==> o == ReadOutcome(items, cur, Ok(0))
  {
    if bufLen == 0 then ReadOutcome(items, cur, Ok(0)) else ReadSpec(items, cur, bufLen)
  }

  /** With the guard, an item is stepped over only when it has nothing left to give. */
  lemma ReadFixedSkipsOnlyEmptyItems(items: seq<Item>, cur: nat, bufLen: nat)
    requires cur <= |items|
    ensures var o := ReadSpecFixed(items, cur, bufLen);
      forall j :: cur <= j < o.cursor ==> items[j].queue == [] || items[j].queue[0] == Ok(0)
  {
    var o := ReadSpecFixed(items, cur, bufLen);
    if bufLen > 0 {
      forall j | cur <= j < o.cursor
        ensures items[j].queue == [] || items[j].queue[0] == Ok(0)
      {
        assert ReadItem(items[j], bufLen).result == Ok(0);
      }
    }
  }

  /** `pos` as written: `inner.pos(i)` for every `i` in `0..=cur`, defined only while `cur` names an item. */
  function PosAsWritten(items: seq<Item>, cur: nat): (p: nat)
    requires cur < |items|
    ensures p == Total(Positions(items[..cur + 1]))
    ensures forall j :: 0 <= j <= cur ==> items[j].pos <= p
  {
    var ps := Positions(items[..cur + 1]);
    assert forall j :: 0 <= j <= cur ==> ps[j] == items[j].pos;
    Total(ps)
  }

  /**
   * Once a read reports the end of the list the cursor equals the item count, so `pos`
   * would ask the list for the position of an item that does not exist.
   */
  lemma PosAfterEndOutOfRange()
    ensures var o := ReadSpec([Item(0, 0, [])], 0, 10);
      o.result == Ok(0) && o.cursor == |o.items| && !(o.cursor < |o.items|)
  {
  }

  /** `pos` with the range stopped at the last item: after the end it is the sum of all positions. */
  function PosClamped(items: seq<Item>, cur: nat): (p: nat)
    requires cur <= |items|
    ensures cur < |items| ==> p == PosAsWritten(items, cur)
    ensures cur == |items| ==> p == Total(Positions(items))
  {
    if cur < |items| then PosAsWritten(items, cur)
    else assert items[..cur] == items; Total(Positions(items))
  }

  /** Raising one count by `n` raises the sum by `n`. */
  lemma {:induction false} TotalBump(xs: seq<nat>, ys: seq<nat>, m: nat, n: nat)
    requires |xs| == |ys| && m < |xs| && ys[m] == xs[m] + n
    requires forall j :: 0 <= j < |xs| && j != m ==> ys[j] == xs[j]
    ensures Total(ys) == Total(xs) + n
    decreases |xs|
  {
    var k := |xs| - 1;
    if m == k {
      assert ys[..k] == xs[..k];
    } else {
      TotalBump(xs[..k], ys[..k], m, n);
    }
  }

  /** Counts of zero after index `k` add nothing to the sum. */
  lemma TotalZeroTail(xs: seq<nat>, k: nat)
    requires k <= |xs|
    requires forall j :: k <= j < |xs| ==> xs[j] == 0
    ensures Total(xs) == Total(xs[..k])
  {
    assert xs == xs[..k] + xs[k..];
    TotalAppend(xs[..k], xs[k..]);
    assert forall i :: 0 <= i < |xs[k..]| ==> xs[k..][i] == 0;
  }

  /**
   * A read changes the position of the item it stops on only, and that one by the count
   * it returns.
   */
  lemma ReadMovesOnePosition(items: seq<Item>, cur: nat, bufLen: nat)
    requires cur <= |items|
    ensures var o := ReadSpec(items, cur, bufLen);
      forall j :: 0 <= j < |items| && j != o.cursor ==> o.items[j].pos == items[j].pos
    ensures var o := ReadSpec(items, cur, bufLen);
      o.cursor < |items| && o.result.Ok? ==> o.items[o.cursor].pos == items[o.cursor].pos + o.result.value
  {
    var o := ReadSpec(items, cur, bufLen);
    forall j | 0 <= j < |items| && j != o.cursor
      ensures o.items[j].pos == items[j].pos
    {
      if cur <= j < o.cursor {
        assert ReadItem(items[j], bufLen).result == Ok(0);
      }
    }
  }

  /**
   * Two lists whose positions differ only at `c`, by `n`, with nothing started after
   * `cur`: `pos` at `c` in the second is `pos` at `cur` in the first plus `n`.
   */
  lemma PosAfterBump(items: seq<Item>, moved: seq<Item>, cur: nat, c: nat, n: nat)
    requires |moved| == |items| && cur <= c < |items|
    requires forall j :: 0 <= j < |items| && j != c ==> moved[j].pos == items[j].pos
    requires moved[c].pos == items[c].pos + n
    requires forall j :: cur < j < |items| ==> items[j].pos == 0
    ensures PosClamped(moved, c) == PosClamped(items, cur) + n
  {
    var before := Positions(items[..c + 1]);
    var after := Positions(moved[..c + 1]);
    TotalBump(before, after, c, n);
    TotalZeroTail(before, cur + 1);
    assert before[..cur + 1] == Positions(items[..cur + 1]);
  }

  /**
   * Two lists with the same positions and nothing started after `cur`: `pos` past the
   * end of the second is `pos` at `cur` in the first.
   */
  lemma PosAfterEnd(items: seq<Item>, moved: seq<Item>, cur: nat)
    requires |moved| == |items| && cur <= |items|
    requires forall j :: 0 <= j < |items| ==> moved[j].pos == items[j].pos
    requires forall j :: cur < j < |items| ==> items[j].pos == 0
    ensures PosClamped(moved, |moved|) == PosClamped(items, cur)
  {
    var ps := Positions(items);
    assert Positions(moved) == ps;
    if cur < |items| {
      TotalZeroTail(ps, cur + 1);
      assert ps[..cur + 1] == Positions(items[..cur + 1]);
    }
  }

  /**
   * While the items after the cursor have not been started (their positions are 0), a
   * read that returns `n` moves `pos` on by exactly `n`: the items it steps over return 0
   * and keep their positions, and the item it stops on advances by the count.
   */
  lemma ReadAdvancesPos(items: seq<Item>, cur: nat, bufLen: nat, n: nat)
    requires cur <= |items|
    requires forall j :: cur < j < |items| ==> items[j].pos == 0
    requires ReadSpec(items, cur, bufLen).result == Ok(n)
    ensures var o := ReadSpec(items, cur, bufLen);
      PosClamped(o.items, o.cursor) == PosClamped(items, cur) + n
  {
    var o := ReadSpec(items, cur, bufLen);
    ReadMovesOnePosition(items, cur, bufLen);
    if o.cursor == |items| {
      PosAfterEnd(items, o.items, cur);
    } else {
      PosAfterBump(items, o.items, cur, o.cursor, n);
    }
  }

  /**
   * Items of 100, 0 and 50 frames: a read of 100 takes the whole first item, and a read
   * with room for 20 then steps over the first and the empty middle item, takes 20 frames
   * of the third and leaves `pos` at 120. The middle item is left as it was.
   */
  lemma ReadThenPosExample()
    ensures var items := [Item(0, 100, [Ok(100)]), Item(0, 0, []), Item(0, 50, [Ok(50)])];
      var first := ReadSpec(items, 0, 100);
      var second := ReadSpec(first.items, first.cursor, 20);
      && first.result == Ok(100) && second.result == Ok(20) && second.cursor == 2
      && second.items[1] == items[1]
      && PosClamped(second.items, second.cursor) == 120
  {
    var items := [Item(0, 100, [Ok(100)]), Item(0, 0, []), Item(0, 50, [Ok(50)])];
    var first := ReadSpec(items, 0, 100);
    assert first.cursor == 0 && first.result == Ok(100);
    ReadAdvancesPos(items, 0, 100, 100);
    assert items[..1] == [items[0]];
    assert PosClamped(items, 0) == 0;
    var after := [Item(100, 100, []), Item(0, 0, []), Item(0, 50, [Ok(50)])];
    assert items[0].queue[1..] == [];
    assert ReadItem(items[0], 100) == ItemRead(after[0], Ok(100));
    assert first.items == items[0 := after[0]] == after;
    assert ReadItem(after[0], 20) == ItemRead(after[0], Ok(0));
    assert ReadItem(after[1], 20) == ItemRead(after[1], Ok(0));
    assert ReadItem(after[2], 20).result == Ok(20);
    assert after[0 := after[0]] == after && after[1 := after[1]] == after;
    assert ReadSpec(after, 1, 20) == ReadSpec(after, 2, 20);
    var second := ReadSpec(after, 0, 20);
    assert second.cursor == 2 && second.result == Ok(20);
    ReadAdvancesPos(first.items, 0, 20, 20);
  }

  /** Moving the cursor on by one adds the next item's position. */
  lemma {:induction false} PosClampedStep(items: seq<Item>, cur: nat)
    requires cur + 1 < |items|
    ensures PosClamped(items, cur + 1) == PosClamped(items, cur) + items[cur + 1].pos
  {
    var a := Positions(items[..cur + 2]);
    assert a[..|a| - 1] == Positions(items[..cur + 1]);
  }
}
