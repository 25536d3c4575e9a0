/** Pure operations on the cart list: looking an entry up by id, filtering
    an id out, and setting the amount of the entries with an id, together
    with what they preserve and how they relate to each other. */
module CartList {
  import opened CartTypes

  datatype Option<T> = None | Some(value: T)

  /** Some entry of `s` has identity `id`. */
  predicate Contains(s: seq<Product>, id: int)
  {
    exists j :: 0 <= j < |s| && s[j].id == id
  }

  /** No two entries of `s` share an id. */
  predicate UniqueIds(s: seq<Product>)
  {
    forall j, k :: 0 <= j < k < |s| ==> s[j].id != s[k].id
  }

  /** Every entry of `s` has a positive quantity. */
  predicate AmountsPositive(s: seq<Product>)
  {
    forall j :: 0 <= j < |s| ==> s[j].amount >= 1
  }

  /** The set of ids present in `s`. */
  function Ids(s: seq<Product>): set<int>
  {
    set p | p in s :: p.id
  }

  /** The position of the first entry with identity `id`, as the list's
      `find` scans front to back. */
  function FindIndex(s: seq<Product>, id: int): (r: Option<nat>)
    ensures r.Some? ==> r.value < |s| && s[r.value].id == id
    ensures r.Some? ==> forall j :: 0 <= j < r.value ==> s[j].id != id
    ensures r.None? <==> !Contains(s, id)
  {
    if s == [] then None
    else if s[0].id == id then Some(0)
    else match FindIndex(s[1..], id)
      case None =>
        assert forall j :: 1 <= j < |s| ==> s[j] == s[1..][j - 1];
        None
      case Some(i) =>
        assert forall j :: 1 <= j <= i + 1 ==> s[j] == s[1..][j - 1];
        Some(i + 1)
  }

  /** The quantity already in the cart for `id`: the amount of the first
      entry with that id, or 0 when there is none. */
  function CurrentAmount(s: seq<Product>, id: int): int
  {
    match FindIndex(s, id)
    case Some(i) => s[i].amount
    case None => 0
  }

  /** The entries of `s`, in order, except those with identity `id`. */
  function Without(s: seq<Product>, id: int): (r: seq<Product>)
    ensures |r| <= |s|
    ensures forall p :: p in r <==> p in s && p.id != id
    ensures !Contains(r, id)
  {
    if s == [] then []
    else if s[0].id == id then Without(s[1..], id)
    else [s[0]] + Without(s[1..], id)
  }

  /** `s` with every entry of identity `id` given quantity `amount`; the
      other entries are passed through unchanged. */
  function WithAmount(s: seq<Product>, id: int, amount: int): (r: seq<Product>)
    ensures |r| == |s|
    ensures forall j :: 0 <= j < |s| ==>
              r[j] == if s[j].id == id then s[j].(amount := amount) else s[j]
  {
    if s == [] then []
    else
      var head := if s[0].id == id then s[0].(amount := amount) else s[0];
      var tail := WithAmount(s[1..], id, amount);
      assert forall j :: 1 <= j < |s| ==> ([head] + tail)[j] == tail[j - 1] && s[j] == s[1..][j - 1];
      [head] + tail
  }

  // ---------------------------------------------------------------------
  // Filtering an id out

  /** Filtering distributes over concatenation: the relative order of the
      kept entries is that of the input. */
  lemma {:induction false} WithoutConcat(a: seq<Product>, b: seq<Product>, id: int)
    ensures Without(a + b, id) == Without(a, id) + Without(b, id)
  {
    if a == [] {
      assert a + b == b;
    } else {
      assert (a + b)[0] == a[0];
      assert (a + b)[1..] == a[1..] + b;
      WithoutConcat(a[1..], b, id);
    }
  }

  /** Filtering out an id that is not present gives back the same list. */
  lemma {:induction false} WithoutAbsent(s: seq<Product>, id: int)
    requires !Contains(s, id)
    ensures Without(s, id) == s
  {
    if s != [] {
      assert s[0].id != id;
      assert !Contains(s[1..], id) by {
        forall j | 0 <= j < |s[1..]| ensures s[1..][j].id != id {
          assert s[1..][j] == s[j + 1];
        }
      }
      WithoutAbsent(s[1..], id);
      assert s == [s[0]] + s[1..];
    }
  }

  /** The tail of a list with unique ids has unique ids. */
  lemma TailKeepsUnique(s: seq<Product>)
    requires s != [] && UniqueIds(s)
    ensures UniqueIds(s[1..])
  {
    var tail := s[1..];
    forall j, k | 0 <= j < k < |tail| ensures tail[j].id != tail[k].id {
      assert tail[j] == s[j + 1] && tail[k] == s[k + 1];
    }
  }

  /** In a list with unique ids, the head's id does not occur in the tail. */
  lemma HeadNotInTail(s: seq<Product>)
    requires s != [] && UniqueIds(s)
    ensures !Contains(s[1..], s[0].id)
  {
    forall j | 0 <= j < |s[1..]| ensures s[1..][j].id != s[0].id {
      assert s[1..][j] == s[j + 1];
    }
  }

  /** Putting an entry whose id is absent in front of a list with unique
      ids keeps ids unique. */
  lemma ConsKeepsUnique(p: Product, t: seq<Product>)
    requires UniqueIds(t) && !Contains(t, p.id)
    ensures UniqueIds([p] + t)
  {
    var r := [p] + t;
    forall j, k | 0 <= j < k < |r| ensures r[j].id != r[k].id {
      assert r[k] == t[k - 1];
      if j > 0 { assert r[j] == t[j - 1]; }
    }
  }

  /** Filtering never brings in an id the input does not have. */
  lemma WithoutKeepsAbsent(s: seq<Product>, id: int, x: int)
    requires !Contains(s, x)
    ensures !Contains(Without(s, id), x)
  {
    var r := Without(s, id);
    forall j | 0 <= j < |r| ensures r[j].id != x {
      assert r[j] in s;
    }
  }

  /** Filtering keeps ids unique. */
  lemma {:induction false} WithoutKeepsUnique(s: seq<Product>, id: int)
    requires UniqueIds(s)
    ensures UniqueIds(Without(s, id))
  {
    if s != [] {
      TailKeepsUnique(s);
      WithoutKeepsUnique(s[1..], id);
      if s[0].id != id {
        HeadNotInTail(s);
        WithoutKeepsAbsent(s[1..], id, s[0].id);
        ConsKeepsUnique(s[0], Without(s[1..], id));
      }
    }
  }

  /** In a list with unique ids, removing the id of entry `i` is exactly
      cutting out position `i`: the list shrinks by one and every other
      entry stays, in order. */
  lemma RemoveUniqueIsSplice(s: seq<Product>, id: int, i: nat)
    requires UniqueIds(s)
    requires i < |s| && s[i].id == id
    ensures Without(s, id) == s[..i] + s[i + 1..]
    ensures |Without(s, id)| == |s| - 1
  {
    var before, here, after := s[..i], [s[i]], s[i + 1..];
    assert s == before + (here + after);
    WithoutConcat(before, here + after, id);
    WithoutConcat(here, after, id);
    assert !Contains(before, id) by {
      forall j | 0 <= j < |before| ensures before[j].id != id {
        assert before[j] == s[j];
      }
    }
    assert !Contains(after, id) by {
      forall j | 0 <= j < |after| ensures after[j].id != id {
        assert after[j] == s[i + 1 + j];
      }
    }
    WithoutAbsent(before, id);
    WithoutAbsent(after, id);
    assert Without(here, id) == [];
  }

  /** The ids left after filtering are the old ids minus `id`. */
  lemma WithoutIds(s: seq<Product>, id: int)
    ensures Ids(Without(s, id)) == Ids(s) - {id}
  {
    var r := Without(s, id);
    forall x | x in Ids(s) - {id} ensures x in Ids(r) {
      var p :| p in s && p.id == x;
      assert p in r;
    }
  }

  // ---------------------------------------------------------------------
  // Appending a new entry

  /** Appending an entry whose id is not yet present keeps ids unique. */
  lemma AppendKeepsUnique(s: seq<Product>, p: Product)
    requires UniqueIds(s) && !Contains(s, p.id)
    ensures UniqueIds(s + [p])
  {
    var r := s + [p];
    forall j, k | 0 <= j < k < |r| ensures r[j].id != r[k].id {
      assert r[j] == s[j];
      if k < |s| { assert r[k] == s[k]; }
    }
  }

  /** Appending an entry with a positive amount keeps all amounts positive. */
  lemma AppendKeepsPositive(s: seq<Product>, p: Product)
    requires AmountsPositive(s) && p.amount >= 1
    ensures AmountsPositive(s + [p])
  {
    var r := s + [p];
    forall j | 0 <= j < |r| ensures r[j].amount >= 1 {
      if j < |s| { assert r[j] == s[j]; }
    }
  }

  /** Removing the id of a freshly appended entry undoes the append. */
  lemma AppendThenRemove(s: seq<Product>, p: Product)
    requires !Contains(s, p.id)
    ensures Without(s + [p], p.id) == s
  {
    WithoutConcat(s, [p], p.id);
    WithoutAbsent(s, p.id);
    assert Without([p], p.id) == [];
  }

  // ---------------------------------------------------------------------
  // Setting an amount

  /** Changing the amount of the entry at one position keeps ids, and keeps
      amounts positive when the new amount is. */
  lemma SetAmountAtKeeps(s: seq<Product>, i: nat, amount: int)
    requires i < |s|
    ensures UniqueIds(s) ==> UniqueIds(s[i := s[i].(amount := amount)])
    ensures AmountsPositive(s) && amount >= 1 ==> AmountsPositive(s[i := s[i].(amount := amount)])
  {
    var r := s[i := s[i].(amount := amount)];
    assert forall j :: 0 <= j < |s| ==> r[j].id == s[j].id;
  }

  /** Setting the amount of an absent id leaves the list as it was. */
  lemma WithAmountAbsent(s: seq<Product>, id: int, amount: int)
    requires !Contains(s, id)
    ensures WithAmount(s, id, amount) == s
  {
    var r := WithAmount(s, id, amount);
    forall j | 0 <= j < |s| ensures r[j] == s[j] {
      assert s[j].id != id;
    }
  }

  /** In a list with unique ids, setting the amount of id `s[i].id` changes
      position `i` and nothing else. */
  lemma WithAmountUniqueAt(s: seq<Product>, id: int, i: nat, amount: int)
    requires UniqueIds(s)
    requires i < |s| && s[i].id == id
    ensures WithAmount(s, id, amount) == s[i := s[i].(amount := amount)]
  {
    var r := WithAmount(s, id, amount);
    forall j | 0 <= j < |s| ensures r[j] == s[i := s[i].(amount := amount)][j] {
      if j != i {
        assert s[j].id != id by {
          if j < i { assert s[j].id != s[i].id; } else { assert s[i].id != s[j].id; }
        }
      }
    }
  }

  /** Setting the amount never changes which id sits at which position,
      hence keeps the set of ids and their uniqueness, and keeps amounts
      positive when the new amount is. */
  lemma WithAmountKeepsIds(s: seq<Product>, id: int, amount: int)
    ensures forall j :: 0 <= j < |s| ==> WithAmount(s, id, amount)[j].id == s[j].id
    ensures Ids(WithAmount(s, id, amount)) == Ids(s)
    ensures UniqueIds(s) ==> UniqueIds(WithAmount(s, id, amount))
    ensures AmountsPositive(s) && amount >= 1 ==> AmountsPositive(WithAmount(s, id, amount))
  {
    var r := WithAmount(s, id, amount);
    forall x | x in Ids(s) ensures x in Ids(r) {
      var p :| p in s && p.id == x;
      var j :| 0 <= j < |s| && s[j] == p;
      assert r[j].id == x;
    }
    forall x | x in Ids(r) ensures x in Ids(s) {
      var p :| p in r && p.id == x;
      var j :| 0 <= j < |r| && r[j] == p;
      assert s[j].id == x;
    }
  }

  /** Of two amount updates on the same id the later one wins. */
  lemma WithAmountTwice(s: seq<Product>, id: int, a: int, b: int)
    ensures WithAmount(WithAmount(s, id, a), id, b) == WithAmount(s, id, b)
  {
    var once := WithAmount(s, id, a);
    forall j | 0 <= j < |s|
      ensures WithAmount(once, id, b)[j] == WithAmount(s, id, b)[j]
    {
      assert once[j].id == s[j].id;
    }
  }

  /** For unique ids, incrementing the entry at the position `FindIndex`
      returns is the same as setting the amount of that id to its current
      amount + 1. */
  lemma IncrementIsUpdate(s: seq<Product>, id: int, i: nat)
    requires UniqueIds(s) && FindIndex(s, id) == Some(i)
    ensures CurrentAmount(s, id) == s[i].amount
    ensures s[i := s[i].(amount := s[i].amount + 1)] == WithAmount(s, id, s[i].amount + 1)
  {
    WithAmountUniqueAt(s, id, i, s[i].amount + 1);
  }
}
