/**
 * ChessBoard.java: a mutable map from position to piece.
 *
 * The map is an association list of (position, value) entries with distinct positions, in
 * insertion order; that order stands for the HashMap's iteration order, which the source leaves
 * unspecified. A value of `None` is a position mapped to `null`: `addPiece(p, null)` keeps `p`
 * as a key, and `equals` tells such a board apart from one where `p` was never set.
 */
module ChessBoards {
  import opened Wrappers
  import opened JavaInts
  import opened ChessPieces
  import opened ChessMoves

  type Entry<V> = (ChessPosition, Option<V>)

  predicate DistinctKeys<V>(es: seq<Entry<V>>)
  {
    forall i, j :: 0 <= i < j < |es| ==> es[i].0 != es[j].0
  }

  function KeySet<V>(es: seq<Entry<V>>): set<ChessPosition>
  {
    set i | 0 <= i < |es| :: es[i].0
  }

  /** The index of the first entry whose key is `p`, if any. */
  function IndexOf<V>(es: seq<Entry<V>>, p: ChessPosition): (r: Option<nat>)
    ensures r.Some? ==> r.value < |es| && es[r.value].0 == p && forall i :: 0 <= i < r.value ==> es[i].0 != p
    ensures r.None? ==> forall i :: 0 <= i < |es| ==> es[i].0 != p
  {
    if es == [] then None
    else if es[0].0 == p then Some(0)
    else match IndexOf(es[1..], p)
      case None => None
      case Some(i) => Some(i + 1)
  }

  /** `Map.get`: the value stored under `p`, or `null` when `p` is absent or mapped to `null`. */
  function Get<V>(es: seq<Entry<V>>, p: ChessPosition): Option<V>
  {
    match IndexOf(es, p)
    case None => None
    case Some(i) => es[i].1
  }

  /** `Map.put`: replace the value of an existing key in place, or append a new entry. */
  function Put<V>(es: seq<Entry<V>>, p: ChessPosition, v: Option<V>): seq<Entry<V>>
  {
    match IndexOf(es, p)
    case None => es + [(p, v)]
    case Some(i) => es[i := (p, v)]
  }

  /** The mathematical map the entries stand for: what `equals` compares. */
  function ToMap<V>(es: seq<Entry<V>>): map<ChessPosition, Option<V>>
  {
    map p | p in KeySet(es) :: Get(es, p)
  }

  /** With distinct keys, looking up an entry's key finds that entry. */
  lemma GetAt<V>(es: seq<Entry<V>>, i: int)
    requires DistinctKeys(es) && 0 <= i < |es|
    ensures Get(es, es[i].0) == es[i].1
  {
    var r := IndexOf(es, es[i].0);
    assert es[i].0 in KeySet(es);
  }

  /** After `put(p, v)`, `get(p)` is `v`, `p` is a key, and every other key keeps its value. */
  lemma PutGet<V>(es: seq<Entry<V>>, p: ChessPosition, v: Option<V>, q: ChessPosition)
    ensures Get(Put(es, p, v), p) == v
    ensures p in KeySet(Put(es, p, v))
    ensures q != p ==> Get(Put(es, p, v), q) == Get(es, q)
    ensures KeySet(Put(es, p, v)) == KeySet(es) + {p}
  {
    match IndexOf(es, p)
    case None => PutAppends(es, p, v, q);
    case Some(i) => PutReplaces(es, p, v, q, i);
  }

  /** `put` of a new key appends it. */
  lemma PutAppends<V>(es: seq<Entry<V>>, p: ChessPosition, v: Option<V>, q: ChessPosition)
    requires IndexOf(es, p).None?
    ensures Get(Put(es, p, v), p) == v
    ensures q != p ==> Get(Put(es, p, v), q) == Get(es, q)
    ensures KeySet(Put(es, p, v)) == KeySet(es) + {p}
  {
    assert Put(es, p, v) == es + [(p, v)];
    IndexOfAppend(es, (p, v), p);
    IndexOfAppend(es, (p, v), q);
    AppendKeys(es, (p, v));
  }

  /** Looking a key up after appending an entry: the old entries come first. */
  lemma IndexOfAppend<V>(es: seq<Entry<V>>, e: Entry<V>, q: ChessPosition)
    ensures IndexOf(es + [e], q) ==
      match IndexOf(es, q)
      case Some(j) => Some(j)
      case None => if e.0 == q then Some(|es|) else None
  {
    var es' := es + [e];
    assert forall k | 0 <= k < |es| :: es'[k] == es[k];
    assert es'[|es|] == e;
  }

  lemma AppendKeys<V>(es: seq<Entry<V>>, e: Entry<V>)
    ensures KeySet(es + [e]) == KeySet(es) + {e.0}
  {
    var es' := es + [e];
    forall x | x in KeySet(es') ensures x in KeySet(es) + {e.0} {
      var i :| 0 <= i < |es'| && es'[i].0 == x;
      if i < |es| { assert es[i].0 == x; }
    }
    forall x | x in KeySet(es) + {e.0} ensures x in KeySet(es') {
      if x == e.0 { assert es'[|es|].0 == x; }
      else { var i :| 0 <= i < |es| && es[i].0 == x; assert es'[i].0 == x; }
    }
  }

  /** `put` of a present key replaces its entry where it stands. */
  lemma PutReplaces<V>(es: seq<Entry<V>>, p: ChessPosition, v: Option<V>, q: ChessPosition, i: nat)
    requires IndexOf(es, p) == Some(i)
    ensures Get(Put(es, p, v), p) == v
    ensures q != p ==> Get(Put(es, p, v), q) == Get(es, q)
    ensures KeySet(Put(es, p, v)) == KeySet(es) + {p}
  {
    var es' := Put(es, p, v);
    assert es' == es[i := (p, v)];
    SameKeysSameIndex(es, es', p);
    SameKeysSameIndex(es, es', q);
    if q != p {
      match IndexOf(es, q)
      case None =>
      case Some(j) => assert es'[j] == es[j];
    }
    ReplaceKeys(es, i, (p, v));
  }

  /** Lists with the same keys at the same indices find a key at the same index. */
  lemma {:induction false} SameKeysSameIndex<V>(a: seq<Entry<V>>, b: seq<Entry<V>>, q: ChessPosition)
    requires |a| == |b| && forall k | 0 <= k < |a| :: a[k].0 == b[k].0
    ensures IndexOf(a, q) == IndexOf(b, q)
  {
    if a != [] && a[0].0 != q {
      SameKeysSameIndex(a[1..], b[1..], q);
    }
  }

  lemma ReplaceKeys<V>(es: seq<Entry<V>>, i: nat, e: Entry<V>)
    requires i < |es| && es[i].0 == e.0
    ensures KeySet(es[i := e]) == KeySet(es) + {e.0}
  {
    var es' := es[i := e];
    forall x | x in KeySet(es') ensures x in KeySet(es) + {e.0} {
      var k :| 0 <= k < |es'| && es'[k].0 == x;
      if k != i { assert es[k].0 == x; }
    }
    forall x | x in KeySet(es) + {e.0} ensures x in KeySet(es') {
      var k :| 0 <= k < |es| && es[k].0 == x;
      assert es'[k].0 == x;
    }
  }

  /** `put` keeps the keys distinct. */
  lemma PutDistinct<V>(es: seq<Entry<V>>, p: ChessPosition, v: Option<V>)
    requires DistinctKeys(es)
    ensures DistinctKeys(Put(es, p, v))
  {
    match IndexOf(es, p)
    case None =>
    case Some(i) =>
  }

  /** `put` updates the map the entries stand for at exactly one key. */
  lemma {:induction false} PutToMap<V>(es: seq<Entry<V>>, p: ChessPosition, v: Option<V>)
    ensures ToMap(Put(es, p, v)) == ToMap(es)[p := v]
  {
    var m' := ToMap(Put(es, p, v));
    PutGet(es, p, v, p);
    forall q | q in m' || q in ToMap(es)[p := v]
      ensures q in m' && q in ToMap(es)[p := v] && m'[q] == ToMap(es)[p := v][q]
    {
      PutGet(es, p, v, q);
    }
  }

  /** Boards are equal exactly when they have the same keys and the same value under each key. */
  lemma {:induction false} MapEqualityIsPointwise<V>(a: seq<Entry<V>>, b: seq<Entry<V>>)
    ensures ToMap(a) == ToMap(b) <==>
            (KeySet(a) == KeySet(b) && forall p :: Get(a, p) == Get(b, p))
  {
    if ToMap(a) == ToMap(b) {
      assert KeySet(a) == ToMap(a).Keys;
      forall p ensures Get(a, p) == Get(b, p) {
        if p !in KeySet(a) {
          assert IndexOf(a, p).None? && IndexOf(b, p).None?;
        } else {
          assert ToMap(a)[p] == ToMap(b)[p];
        }
      }
    }
  }

  /** A key set to `null` on a board where it was absent changes the map although `get` still answers `null`. */
  lemma {:induction false} NullEntryIsObservable<V>(es: seq<Entry<V>>, p: ChessPosition)
    requires p !in KeySet(es)
    ensures Get(Put(es, p, None), p) == Get(es, p) == None
    ensures ToMap(Put(es, p, None)) != ToMap(es)
  {
    PutGet(es, p, None, p);
    assert IndexOf(es, p).None?;
    assert p in ToMap(Put(es, p, None));
  }

  /** The sum of the entries' hash codes, as AbstractMap.hashCode adds them up. */
  function HashSum<V>(es: seq<Entry<V>>, entryHash: Entry<V> -> int32): int
  {
    if es == [] then 0 else entryHash(es[0]) + HashSum(es[1..], entryHash)
  }

  lemma {:induction false} HashSumAppend<V>(x: seq<Entry<V>>, y: seq<Entry<V>>, h: Entry<V> -> int32)
    ensures HashSum(x + y, h) == HashSum(x, h) + HashSum(y, h)
  {
    if x == [] {
      assert x + y == y;
    } else {
      assert (x + y)[1..] == x[1..] + y;
      HashSumAppend(x[1..], y, h);
    }
  }

  /** Removing one entry from distinct entries keeps the other entries, in order. */
  lemma RemoveAtShift<V>(es: seq<Entry<V>>, j: int, t: int)
    requires 0 <= j < |es| && 0 <= t < |es| - 1
    ensures (es[..j] + es[j + 1..])[t] == es[if t < j then t else t + 1]
  {
  }

  lemma RemoveAtDistinct<V>(es: seq<Entry<V>>, j: int)
    requires DistinctKeys(es) && 0 <= j < |es|
    ensures DistinctKeys(es[..j] + es[j + 1..])
  {
    var es' := es[..j] + es[j + 1..];
    forall t1, t2 | 0 <= t1 < t2 < |es'| ensures es'[t1].0 != es'[t2].0 {
      RemoveAtShift(es, j, t1);
      RemoveAtShift(es, j, t2);
    }
  }

  /** Removing one entry from distinct entries removes exactly its key from the map. */
  lemma RemoveAtToMap<V>(es: seq<Entry<V>>, j: int)
    requires DistinctKeys(es) && 0 <= j < |es|
    ensures DistinctKeys(es[..j] + es[j + 1..])
    ensures ToMap(es[..j] + es[j + 1..]) == ToMap(es) - {es[j].0}
  {
    var es' := es[..j] + es[j + 1..];
    RemoveAtDistinct(es, j);
    RemoveAtKeys(es, j);
    forall q | q in KeySet(es') ensures Get(es', q) == Get(es, q) {
      RemoveAtGet(es, j, q);
    }
  }

  lemma RemoveAtKeys<V>(es: seq<Entry<V>>, j: int)
    requires DistinctKeys(es) && 0 <= j < |es|
    ensures KeySet(es[..j] + es[j + 1..]) == KeySet(es) - {es[j].0}
  {
    var es' := es[..j] + es[j + 1..];
    forall q | q in KeySet(es') ensures q in KeySet(es) && q != es[j].0 {
      var t :| 0 <= t < |es'| && es'[t].0 == q;
      RemoveAtShift(es, j, t);
    }
    forall q | q in KeySet(es) - {es[j].0} ensures q in KeySet(es') {
      var t :| 0 <= t < |es| && es[t].0 == q;
      var t' := if t < j then t else t - 1;
      RemoveAtShift(es, j, t');
      assert es'[t'].0 == q;
    }
  }

  lemma RemoveAtGet<V>(es: seq<Entry<V>>, j: int, q: ChessPosition)
    requires DistinctKeys(es) && 0 <= j < |es| && q in KeySet(es[..j] + es[j + 1..])
    ensures Get(es[..j] + es[j + 1..], q) == Get(es, q)
  {
    var es' := es[..j] + es[j + 1..];
    RemoveAtDistinct(es, j);
    var t :| 0 <= t < |es'| && es'[t].0 == q;
    RemoveAtShift(es, j, t);
    GetAt(es', t);
    GetAt(es, if t < j then t else t + 1);
  }

  /** Taking one entry out of the middle of a list takes its hash code out of the sum. */
  lemma {:induction false} HashSumRemoveAt<V>(b: seq<Entry<V>>, j: int, h: Entry<V> -> int32)
    requires 0 <= j < |b|
    ensures HashSum(b, h) == h(b[j]) + HashSum(b[..j] + b[j + 1..], h)
  {
    assert b == b[..j] + [b[j]] + b[j + 1..];
    HashSumAppend(b[..j] + [b[j]], b[j + 1..], h);
    HashSumAppend(b[..j], [b[j]], h);
    HashSumAppend(b[..j], b[j + 1..], h);
    assert HashSum([b[j]], h) == h(b[j]) + HashSum([b[j]][1..], h);
  }

  /** The first entry of one list occurs in any other distinct list with the same map. */
  lemma FirstEntryOccurs<V>(a: seq<Entry<V>>, b: seq<Entry<V>>) returns (j: int)
    requires DistinctKeys(a) && DistinctKeys(b) && ToMap(a) == ToMap(b) && a != []
    ensures 0 <= j < |b| && b[j] == a[0]
  {
    var k := a[0].0;
    assert k in KeySet(a);
    assert k in ToMap(a);
    assert k in KeySet(b);
    j :| 0 <= j < |b| && b[j].0 == k;
    GetAt(a, 0);
    GetAt(b, j);
    assert ToMap(a)[k] == ToMap(b)[k];
  }

  lemma EmptyMapHasNoEntries<V>(b: seq<Entry<V>>)
    ensures ToMap(b) == map[] <==> b == []
  {
    if b != [] {
      assert b[0].0 in KeySet(b);
      assert b[0].0 in ToMap(b);
    }
  }

  /** Boards whose maps are equal have equal hash sums, whatever order their entries are in. */
  lemma {:induction false} EqualMapsHaveEqualHashSums<V>(a: seq<Entry<V>>, b: seq<Entry<V>>, h: Entry<V> -> int32)
    requires DistinctKeys(a) && DistinctKeys(b) && ToMap(a) == ToMap(b)
    ensures HashSum(a, h) == HashSum(b, h)
    decreases |a|
  {
    if a == [] {
      EmptyMapHasNoEntries(a);
      EmptyMapHasNoEntries(b);
    } else {
      var j := FirstEntryOccurs(a, b);
      var b' := DropMatchingEntries(a, b, j, h);
      EqualMapsHaveEqualHashSums(a[1..], b', h);
    }
  }

  /** One step of the proof above: drop the first entry of `a` and its twin `b[j]`. */
  lemma DropMatchingEntries<V>(a: seq<Entry<V>>, b: seq<Entry<V>>, j: int, h: Entry<V> -> int32) returns (b': seq<Entry<V>>)
    requires DistinctKeys(a) && DistinctKeys(b) && ToMap(a) == ToMap(b) && a != []
    requires 0 <= j < |b| && b[j] == a[0]
    ensures DistinctKeys(a[1..]) && DistinctKeys(b') && ToMap(a[1..]) == ToMap(b')
    ensures |b'| == |b| - 1
    ensures HashSum(a, h) == h(a[0]) + HashSum(a[1..], h)
    ensures HashSum(b, h) == h(a[0]) + HashSum(b', h)
  {
    b' := b[..j] + b[j + 1..];
    DropMatchingKeys(a, b, j);
    HashSumRemoveAt(b, j, h);
  }

  lemma DropMatchingKeys<V>(a: seq<Entry<V>>, b: seq<Entry<V>>, j: int)
    requires DistinctKeys(a) && DistinctKeys(b) && ToMap(a) == ToMap(b) && a != []
    requires 0 <= j < |b| && b[j].0 == a[0].0
    ensures DistinctKeys(a[1..]) && DistinctKeys(b[..j] + b[j + 1..])
    ensures ToMap(a[1..]) == ToMap(b[..j] + b[j + 1..])
  {
    RemoveAtToMap(a, 0);
    RemoveAtToMap(b, j);
    assert a[..0] + a[1..] == a[1..];
  }

  /** The `ChessBoard` object: its one field is the map, here as the entry list. */
  class ChessBoard {
    var board: seq<Entry<ChessPiece>>

    ghost predicate Valid()
      reads this
    {
      DistinctKeys(board)
    }

    /** A new board is empty. */
    constructor()
      ensures Valid() && board == []
    {
      board := [];
    }

    /** The position-to-piece map a move generator sees. */
    function Squares(): map<ChessPosition, Option<ChessPiece>>
      reads this
    {
      ToMap(board)
    }

    method AddPiece(position: ChessPosition, piece: Option<ChessPiece>)
      requires Valid()
      modifies this
      ensures Valid()
      ensures board == Put(old(board), position, piece)
      ensures Squares() == old(Squares())[position := piece]
    {
      PutDistinct(board, position, piece);
      PutToMap(board, position, piece);
      board := Put(board, position, piece);
    }

    function GetPiece(position: ChessPosition): Option<ChessPiece>
      reads this
    {
      Get(board, position)
    }

    /** The source leaves this method empty: the board is not changed. */
    method ResetBoard()
      modifies this
      ensures board == old(board)
    {
    }

    /** The deep copy that ChessGame relies on (ChessBoard.java as shown does not define it). */
    method Clone() returns (copy: ChessBoard)
      requires Valid()
      ensures fresh(copy) && copy.Valid() && copy.board == board
    {
      copy := new ChessBoard();
      copy.board := board;
    }

    /** ChessBoard.equals: the underlying maps are equal. */
    function Equals(that: ChessBoard): bool
      reads this, that
    {
      ToMap(board) == ToMap(that.board)
    }

    /** ChessBoard.hashCode: the map's hash code, the `int` sum of its entries' hash codes. */
    function HashCode(entryHash: Entry<ChessPiece> -> int32): int32
      reads this
    {
      Wrap(HashSum(board, entryHash))
    }
  }

  /** Equal boards have equal hash codes. */
  lemma EqualBoardsHaveEqualHashes(a: ChessBoard, b: ChessBoard, entryHash: Entry<ChessPiece> -> int32)
    requires a.Valid() && b.Valid() && a.Equals(b)
    ensures a.HashCode(entryHash) == b.HashCode(entryHash)
  {
    EqualMapsHaveEqualHashSums(a.board, b.board, entryHash);
  }
}
