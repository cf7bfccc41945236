/**
 * The index arithmetic of the swipeable store header of the phone inventory view
 * (src/app/inventory/PhoneStoresHeader.tsx): wrapping an index into the list of stores,
 * the five-store window centred on the selected store, the store chosen after a swipe,
 * and the direction correction applied when the selection wraps around the ends.
 */
module PhoneStoresHeader {

  /** A character or vault store; the header only uses its id and its position in the list. */
  datatype Store = Store(id: string)

  /**
   * `stores.indexOf(store)`: the first position holding `x`, or -1 when there is none.
   */
  function IndexOf(stores: seq<Store>, x: Store): (r: int)
    ensures -1 <= r < |stores|
    ensures r == -1 <==> x !in stores
    ensures 0 <= r ==> stores[r] == x && forall j :: 0 <= j < r ==> stores[j] != x
  {
    if |stores| == 0 then -1
    else if stores[0] == x then 0
    else
      var k := IndexOf(stores[1..], x);
      assert forall j :: 1 <= j < |stores| ==> stores[1..][j - 1] == stores[j];
      if k == -1 then -1 else k + 1
  }

  lemma {:induction false} MulAtLeast(d: int, n: int)
    requires d >= 1 && n > 0
    ensures d * n >= n
  {
    if d > 1 {
      MulAtLeast(d - 1, n);
      assert d * n == (d - 1) * n + n;
    }
  }

  /** A value in `[0, n)` that differs from `x` by a multiple of `n` is `x % n`. */
  lemma ModUnique(x: int, n: int, q: int, r: int)
    requires n > 0 && 0 <= r < n && x == q * n + r
    ensures x % n == r
  {
    var q0, r0 := x / n, x % n;
    var d := q0 - q;
    assert d * n == r - r0 by {
      assert x == q0 * n + r0;
      assert q0 * n - q * n == d * n;
    }
    if d >= 1 {
      MulAtLeast(d, n);
      assert false;
    } else if d <= -1 {
      MulAtLeast(-d, n);
      assert false;
    }
  }

  lemma ModAddPeriod(x: int, n: int)
    requires n > 0
    ensures (x + n) % n == x % n
  {
    ModUnique(x + n, n, x / n + 1, x % n);
  }

  lemma ModSubPeriod(x: int, n: int)
    requires n > 0
    ensures (x - n) % n == x % n
  {
    ModUnique(x - n, n, x / n - 1, x % n);
  }

  /**
   * `wrap`: bring `index` into `[0, length)` by adding `length` while it is negative and
   * then subtracting `length` while it is too large. It only terminates for a positive
   * length (see WrapNeverExits).
   */
  method Wrap(index: int, length: int) returns (r: int)
    requires length > 0
    ensures 0 <= r < length
    ensures r == index % length
    ensures 0 <= index < length ==> r == index
  {
    r := index;
    while r < 0
      invariant r % length == index % length
      invariant 0 <= index ==> r == index
      decreases -r
    {
      ModAddPeriod(r, length);
      r := r + length;
    }
    while r >= length
      invariant 0 <= r
      invariant r % length == index % length
      invariant 0 <= index < length ==> r == index
      decreases r
    {
      ModSubPeriod(r, length);
      r := r - length;
    }
    if 0 <= index < length {
      ModUnique(index, length, 0, index);
    }
    ModUnique(r, length, 0, r);
  }

  /**
   * With a length that is not positive neither loop of `wrap` ever exits: after any number
   * `k` of iterations the loop's condition still holds.
   */
  lemma {:induction false} WrapNeverExits(index: int, length: int, k: nat)
    requires length <= 0
    ensures index < 0 ==> index + k * length < 0
    ensures index >= 0 ==> index - k * length >= length
  {
    if k > 0 {
      WrapNeverExits(index, length, k - 1);
      assert index + k * length == index + (k - 1) * length + length;
      assert index - k * length == index - (k - 1) * length - length;
    }
  }

  /**
   * The five stores shown by the header: from two before the selected store to two after
   * it, wrapping around the ends of the list.
   */
  method Segments(stores: seq<Store>, selectedStore: Store) returns (segments: seq<Store>)
    requires |stores| > 0
    ensures |segments| == 5
    ensures forall k :: 0 <= k < 5 ==> segments[k] == stores[(IndexOf(stores, selectedStore) - 2 + k) % |stores|]
    ensures selectedStore in stores ==> segments[2] == selectedStore
    ensures selectedStore !in stores ==> segments[2] == stores[|stores| - 1]
  {
    var index := IndexOf(stores, selectedStore);
    segments := [];
    var i := index - 2;
    while i <= index + 2
      invariant index - 2 <= i <= index + 3
      invariant |segments| == i - (index - 2)
      invariant forall k :: 0 <= k < |segments| ==> segments[k] == stores[(index - 2 + k) % |stores|]
      decreases index + 2 - i
    {
      var w := Wrap(i, |stores|);
      segments := segments + [stores[w]];
      i := i + 1;
    }
    if selectedStore !in stores {
      ModUnique(-1, |stores|, -1, |stores| - 1);
    } else {
      ModUnique(index, |stores|, 0, index);
    }
  }

  /**
   * `onIndexChanged`: after a swipe of `index` segments, the id of the store to select,
   * counted from the current store's position and wrapped into the list.
   */
  method OnIndexChanged(stores: seq<Store>, selectedStore: Store, index: int) returns (selectedId: string)
    requires |stores| > 0
    ensures selectedId == stores[(IndexOf(stores, selectedStore) + index) % |stores|].id
    ensures selectedStore in stores && index == 0 ==> selectedId == selectedStore.id
  {
    var originalIndex := IndexOf(stores, selectedStore);
    var w := Wrap(originalIndex + index, |stores|);
    selectedId := stores[w].id;
  }

  /**
   * The step the animation moves by when the selection changes from `lastIndex` to `index`
   * among `numSegments` stores: the plain difference, except that a jump from the first store
   * to a later one is a step back by one, and a jump from the last store to an earlier one is
   * a step forward by one. For at least three stores, a move to a neighbour around the ring is
   * therefore always a step of exactly one in the direction of the move.
   */
  method DirectionDiff(index: int, lastIndex: int, numSegments: int) returns (diff: int)
    ensures lastIndex == 0 && index - lastIndex > 1 ==> diff == -1
    ensures !(lastIndex == 0 && index - lastIndex > 1) && lastIndex == numSegments - 1 && index - lastIndex < -1
      ==> diff == 1
    ensures !(lastIndex == 0 && index - lastIndex > 1) && !(lastIndex == numSegments - 1 && index - lastIndex < -1)
      ==> diff == index - lastIndex
    ensures numSegments >= 3 && 0 <= lastIndex < numSegments && index == (lastIndex + 1) % numSegments ==> diff == 1
    ensures numSegments >= 3 && 0 <= lastIndex < numSegments && index == (lastIndex - 1) % numSegments ==> diff == -1
  {
    if numSegments >= 3 && 0 <= lastIndex < numSegments {
      if lastIndex + 1 < numSegments {
        ModUnique(lastIndex + 1, numSegments, 0, lastIndex + 1);
      } else {
        ModUnique(numSegments, numSegments, 1, 0);
      }
      if lastIndex > 0 {
        ModUnique(lastIndex - 1, numSegments, 0, lastIndex - 1);
      } else {
        ModUnique(-1, numSegments, -1, numSegments - 1);
      }
    }
    diff := index - lastIndex;
    if lastIndex == 0 && diff > 1 {
      diff := -1;
    } else if lastIndex == numSegments - 1 && diff < -1 {
      diff := 1;
    }
  }
}
