/** Shared value types for the openblack model: optional values, results with an
    error payload, and the fixed-width integers the C++ code stores in its structs. */
module Common {

  datatype Option<+T> = None | Some(value: T)

  /** The outcome of an operation that may throw: `Err` carries what was thrown. */
  datatype Result<+T, +E> = Ok(value: T) | Err(error: E) {
    predicate IsFailure() { Err? }

    function PropagateFailure<U>(): Result<U, E>
      requires Err?
    {
      Err(error)
    }

    function Extract(): T
      requires Ok?
    {
      value
    }
  }

  /** glm::vec2 and glm::vec3, with opaque real components. */
  datatype Vec2 = Vec2(x: real, y: real)
  datatype Vec3 = Vec3(x: real, y: real, z: real)

  const TwoTo8: int := 0x100
  const TwoTo16: int := 0x1_0000
  const TwoTo31: int := 0x8000_0000
  const TwoTo32: int := 0x1_0000_0000

  newtype byte = x: int | 0 <= x < 0x100
  type u16 = x: int | 0 <= x < 0x1_0000
  type u32 = x: int | 0 <= x < 0x1_0000_0000
  type i32 = x: int | -0x8000_0000 <= x < 0x8000_0000

  /** `static_cast<int32_t>` of an unsigned 32-bit value: two's-complement reinterpretation. */
  function U32ToI32(v: u32): (r: i32)
    ensures r % TwoTo32 == v % TwoTo32
    ensures v < TwoTo31 <==> r == v
  {
    if v < TwoTo31 then v else v - TwoTo32
  }

  /** `static_cast<uint32_t>` of a signed 32-bit value. */
  function I32ToU32(v: i32): (r: u32)
    ensures r % TwoTo32 == v % TwoTo32
    ensures 0 <= v <==> r == v
  {
    if v >= 0 then v else v + TwoTo32
  }

  /** `static_cast<uint16_t>` of a 32-bit unsigned value: keeps the low 16 bits. */
  function TruncateU16(v: u32): (r: u16)
    ensures r % TwoTo16 == v % TwoTo16
    ensures v < TwoTo16 ==> r == v
  {
    v % TwoTo16
  }

  lemma U32I32RoundTrip(v: u32)
    ensures I32ToU32(U32ToI32(v)) == v
  {}

  /** Little-endian 32-bit read of four bytes. */
  function LE32(b: seq<byte>, at: nat): (r: u32)
    requires at + 4 <= |b|
    ensures r % TwoTo8 == b[at] as int
  {
    b[at] as int + TwoTo8 * (b[at + 1] as int + TwoTo8 * (b[at + 2] as int + TwoTo8 * (b[at + 3] as int)))
  }

  /** The bytes of a 32-bit value, least significant first. */
  function EncodeLE32(v: u32): (r: seq<byte>)
    ensures |r| == 4
  {
    var q1 := v / 0x100;
    var q2 := q1 / 0x100;
    [(v % 0x100) as byte, (q1 % 0x100) as byte, (q2 % 0x100) as byte, (q2 / 0x100) as byte]
  }

  lemma {:induction false} LE32OfEncode(v: u32)
    ensures LE32(EncodeLE32(v), 0) == v
  {
    var e := EncodeLE32(v);
    var q1 := v / 0x100;
    var q2 := q1 / 0x100;
    assert v == v % 0x100 + 0x100 * q1;
    assert q1 == q1 % 0x100 + 0x100 * q2;
    assert q2 == q2 % 0x100 + 0x100 * (q2 / 0x100);
    assert q2 / 0x100 < 0x100;
    assert e[0] as int == v % 0x100 && e[1] as int == q1 % 0x100;
    assert e[2] as int == q2 % 0x100 && e[3] as int == q2 / 0x100;
  }

  /** Four bytes that spell `v` least significant first read back as `v`. */
  lemma LE32Of(b: seq<byte>, at: nat, v: u32)
    requires at + 4 <= |b|
    requires forall m :: 0 <= m < 4 ==> b[at + m] == EncodeLE32(v)[m]
    ensures LE32(b, at) == v
  {
    LE32OfEncode(v);
    var e := EncodeLE32(v);
    assert b[at] == e[0] && b[at + 1] == e[1] && b[at + 2] == e[2] && b[at + 3] == e[3];
  }

  /** Sum of a sequence of naturals. */
  function Sum(s: seq<nat>): nat
  {
    if |s| == 0 then 0 else Sum(s[..|s| - 1]) + s[|s| - 1]
  }

  /** Concatenation of a sequence of sequences, in order. */
  function Flatten<T>(s: seq<seq<T>>): seq<T>
  {
    if |s| == 0 then [] else Flatten(s[..|s| - 1]) + s[|s| - 1]
  }

  lemma {:induction false} FlattenLength<T>(s: seq<seq<T>>)
    ensures |Flatten(s)| == Sum(seq(|s|, i requires 0 <= i < |s| => |s[i]|))
  {
    if |s| > 0 {
      FlattenLength(s[..|s| - 1]);
      var lens := seq(|s|, i requires 0 <= i < |s| => |s[i]|);
      assert lens[..|s| - 1] == seq(|s| - 1, i requires 0 <= i < |s| - 1 => |s[..|s| - 1][i]|);
    }
  }

  /** A prefix one longer is the shorter prefix and one more element. */
  lemma PrefixSnoc<T>(s: seq<T>, i: nat)
    requires i < |s|
    ensures s[..i + 1] == s[..i] + [s[i]] && s[..i + 1][..i] == s[..i]
  {}

  /** Pairwise distinctness of the elements of a sequence. */
  predicate Distinct<T(==)>(s: seq<T>)
  {
    forall i, j :: 0 <= i < j < |s| ==> s[i] != s[j]
  }

  /** No element of `a` occurs in `b`. */
  predicate Disjoint<T(==)>(a: seq<T>, b: seq<T>)
  {
    forall i, j :: 0 <= i < |a| && 0 <= j < |b| ==> a[i] != b[j]
  }

  lemma DistinctConcat<T>(a: seq<T>, b: seq<T>)
    requires Distinct(a) && Distinct(b) && Disjoint(a, b)
    ensures Distinct(a + b)
  {
    forall i, j | 0 <= i < j < |a + b|
      ensures (a + b)[i] != (a + b)[j]
    {
      if j < |a| {
        assert (a + b)[i] == a[i] && (a + b)[j] == a[j];
      } else if i < |a| {
        assert (a + b)[i] == a[i] && (a + b)[j] == b[j - |a|];
      } else {
        assert (a + b)[i] == b[i - |a|] && (a + b)[j] == b[j - |a|];
      }
    }
  }

  lemma DisjointConcat<T>(a: seq<T>, b: seq<T>, c: seq<T>)
    requires Disjoint(a, c) && Disjoint(b, c)
    ensures Disjoint(a + b, c)
  {
    forall i, j | 0 <= i < |a + b| && 0 <= j < |c|
      ensures (a + b)[i] != c[j]
    {
      if i < |a| {
        assert (a + b)[i] == a[i];
      } else {
        assert (a + b)[i] == b[i - |a|];
      }
    }
  }

  /** The keys of an association list, in order. */
  function Keys<K, V>(s: seq<(K, V)>): (r: seq<K>)
    ensures |r| == |s|
    ensures forall i :: 0 <= i < |s| ==> r[i] == s[i].0
  {
    seq(|s|, i requires 0 <= i < |s| => s[i].0)
  }

  /** The values of an association list, in order. */
  function Values<K, V>(s: seq<(K, V)>): (r: seq<V>)
    ensures |r| == |s|
    ensures forall i :: 0 <= i < |s| ==> r[i] == s[i].1
  {
    seq(|s|, i requires 0 <= i < |s| => s[i].1)
  }

  lemma KeysOfConcat<K, V>(a: seq<(K, V)>, b: seq<(K, V)>)
    ensures Keys(a + b) == Keys(a) + Keys(b)
  {
    assert forall i :: 0 <= i < |a + b| ==> Keys(a + b)[i] == (Keys(a) + Keys(b))[i];
  }

  /** Position of the first entry with key `k`. */
  function KeyIndex<K(==), V>(s: seq<(K, V)>, k: K): (r: Option<nat>)
    ensures r.Some? ==> r.value < |s| && s[r.value].0 == k
    ensures r.Some? ==> forall j :: 0 <= j < r.value ==> s[j].0 != k
    ensures r.None? <==> k !in Keys(s)
  {
    if |s| == 0 then None
    else if s[0].0 == k then Some(0)
    else
      match KeyIndex(s[1..], k)
      case None =>
        assert Keys(s) == [s[0].0] + Keys(s[1..]);
        None
      case Some(i) => Some(i + 1)
  }

  /** Lookup in an association list: the value of the first entry with key `k`. This is
      what a std::map or std::unordered_map built from an initialiser list answers,
      since a repeated key in the list is not inserted again. */
  function Lookup<K(==), V>(s: seq<(K, V)>, k: K): (r: Option<V>)
    ensures r.None? <==> k !in Keys(s)
    ensures r.Some? ==> (k, r.value) in s
  {
    match KeyIndex(s, k)
    case None => None
    case Some(i) => Some(s[i].1)
  }

  /** Looking up in a list with one more entry in front. */
  lemma LookupCons<K, V>(e: (K, V), s: seq<(K, V)>, k: K)
    ensures Lookup([e] + s, k) == if e.0 == k then Some(e.1) else Lookup(s, k)
  {
    assert ([e] + s)[1..] == s;
  }

  /** With pairwise distinct keys, every entry is what its own key looks up. */
  lemma LookupOfDistinct<K, V>(s: seq<(K, V)>, i: nat)
    requires i < |s| && Distinct(Keys(s))
    ensures Lookup(s, s[i].0) == Some(s[i].1)
  {
    assert Keys(s)[i] == s[i].0;
  }

  /** `std::map::emplace` of each pair in turn: a key already present keeps its value,
      and the first value given for a new key wins. */
  function EmplaceAll<K(!new), V>(m: map<K, V>, s: seq<(K, V)>): (r: map<K, V>)
    ensures forall k :: k in r <==> k in m || k in Keys(s)
    ensures forall k :: k in m ==> r[k] == m[k]
    ensures forall k :: k !in m && k in Keys(s) ==> Lookup(s, k) == Some(r[k])
    decreases |s|
  {
    if |s| == 0 then m
    else
      var m' := if s[0].0 in m then m else m[s[0].0 := s[0].1];
      var r := EmplaceAll(m', s[1..]);
      assert Keys(s) == [s[0].0] + Keys(s[1..]);
      r
  }

  /** Emplacing the kept entries: a key the map lacks takes the value of its first
      entry. */
  lemma EmplaceFirstOfKey<K(!new), V>(m: map<K, V>, s: seq<(K, V)>, drop: K -> bool, i: nat)
    requires i < |s| && !drop(s[i].0) && s[i].0 !in m
    requires forall j :: 0 <= j < i ==> s[j].0 != s[i].0
    ensures s[i].0 in EmplaceAll(m, DropKeys(s, drop))
    ensures EmplaceAll(m, DropKeys(s, drop))[s[i].0] == s[i].1
  {
    var k := s[i].0;
    assert Keys(s)[i] == k;
    assert KeyIndex(s, k) == Some(i);
    var kept := DropKeys(s, drop);
    assert Lookup(kept, k) == Some(s[i].1);
    assert k in Keys(kept);
  }

  /** No entry after position `i` has the key of entry `i`. */
  predicate LastOfKey<K(==), V>(s: seq<(K, V)>, i: nat)
    requires i < |s|
  {
    forall j :: i < j < |s| ==> s[j].0 != s[i].0
  }

  /** `m[k] = v` for each pair in turn, as `operator[]` assigns: the last value given
      for a key wins, and keys never given keep their value. */
  function AssignAll<K(!new), V>(m: map<K, V>, s: seq<(K, V)>): (r: map<K, V>)
    ensures forall k :: k in r <==> k in m || k in Keys(s)
    ensures forall k :: k in m && k !in Keys(s) ==> r[k] == m[k]
    ensures forall i :: 0 <= i < |s| ==> s[i].0 in r
    ensures forall i :: 0 <= i < |s| && LastOfKey(s, i) ==> r[s[i].0] == s[i].1
    decreases |s|
  {
    if |s| == 0 then m
    else
      var init := s[..|s| - 1];
      var last := s[|s| - 1];
      var prev := AssignAll(m, init);
      var r := prev[last.0 := last.1];
      assert Keys(s) == Keys(init) + [last.0];
      assert forall i :: 0 <= i < |s| && LastOfKey(s, i) ==> r[s[i].0] == s[i].1 by {
        forall i | 0 <= i < |s| && LastOfKey(s, i)
          ensures r[s[i].0] == s[i].1
        {
          if i < |s| - 1 {
            assert init[i] == s[i];
            assert LastOfKey(init, i);
          }
        }
      }
      assert forall i :: 0 <= i < |s| ==> s[i].0 in r by {
        forall i | 0 <= i < |s| ensures s[i].0 in r {
          if i < |s| - 1 {
            assert init[i] == s[i];
          }
        }
      }
      r
  }

  /** Assigning one more pair is one more `operator[]` assignment. */
  lemma AssignAllSnoc<K(!new), V>(m: map<K, V>, s: seq<(K, V)>, e: (K, V))
    ensures AssignAll(m, s + [e]) == AssignAll(m, s)[e.0 := e.1]
  {
    assert (s + [e])[..|s|] == s;
  }


  /** The entries whose key `drop` does not reject, in order: a kept key looks up to
      the same value as in the whole list, and a dropped key is absent. */
  function DropKeys<K(==,!new), V>(s: seq<(K, V)>, drop: K -> bool): (r: seq<(K, V)>)
    ensures |r| <= |s|
    ensures forall k :: !drop(k) ==> Lookup(r, k) == Lookup(s, k)
    ensures forall k :: drop(k) ==> Lookup(r, k).None?
    decreases |s|
  {
    if |s| == 0 then []
    else
      var rest := DropKeys(s[1..], drop);
      assert s == [s[0]] + s[1..];
      assert forall k :: Lookup(s, k) == if s[0].0 == k then Some(s[0].1) else Lookup(s[1..], k) by {
        forall k { LookupCons(s[0], s[1..], k); }
      }
      if drop(s[0].0) then rest
      else
        var r := [s[0]] + rest;
        assert forall k :: Lookup(r, k) == if s[0].0 == k then Some(s[0].1) else Lookup(rest, k) by {
          forall k { LookupCons(s[0], rest, k); }
        }
        r
  }
}
