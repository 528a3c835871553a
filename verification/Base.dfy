/** Shared vocabulary: options, bytes, and a few facts about sequences and text. */
module Base {

  datatype Option<+T> = None | Some(value: T)

  type byte = n: int | 0 <= n < 256

  type bytes = seq<byte>

  /** The bytes of an ASCII literal. */
  function Ascii(s: string): bytes {
    seq(|s|, i requires 0 <= i < |s| => if s[i] as int < 128 then s[i] as int else 0)
  }

  function Flatten<T>(parts: seq<seq<T>>): seq<T> {
    if parts == [] then [] else parts[0] + Flatten(parts[1..])
  }

  lemma Assoc<T>(a: seq<T>, b: seq<T>, c: seq<T>)
    ensures a + b + c == a + (b + c)
  {
  }

  lemma {:induction false} FlattenAppend<T>(a: seq<seq<T>>, b: seq<seq<T>>)
    ensures Flatten(a + b) == Flatten(a) + Flatten(b)
  {
    if a == [] {
      assert a + b == b;
    } else {
      FlattenAppend(a[1..], b);
      assert (a + b)[0] == a[0] && (a + b)[1..] == a[1..] + b;
      Assoc(a[0], Flatten(a[1..]), Flatten(b));
    }
  }

  lemma FlattenSnoc<T>(a: seq<seq<T>>, x: seq<T>)
    ensures Flatten(a + [x]) == Flatten(a) + x
  {
    FlattenAppend(a, [x]);
    assert [x][1..] == [];
  }

  lemma PrefixGrows<T>(s: seq<T>, i: nat)
    requires i < |s|
    ensures s[..i + 1] == s[..i] + [s[i]]
  {
  }

  lemma CutJoins<T>(s: seq<T>, i: nat)
    requires i <= |s|
    ensures s[..i] + s[i..] == s
  {
  }

  /** Cutting a list of parts after the part i. */
  lemma FlattenCut<T>(chunks: seq<seq<T>>, i: nat)
    requires i < |chunks|
    ensures Flatten(chunks[..i + 1]) == Flatten(chunks[..i]) + chunks[i]
    ensures Flatten(chunks) == Flatten(chunks[..i + 1]) + Flatten(chunks[i + 1..])
  {
    PrefixGrows(chunks, i);
    FlattenSnoc(chunks[..i], chunks[i]);
    CutJoins(chunks, i + 1);
    FlattenAppend(chunks[..i + 1], chunks[i + 1..]);
  }

  predicate OccursAt<T(==)>(hay: seq<T>, needle: seq<T>, i: nat) {
    i + |needle| <= |hay| && hay[i..i + |needle|] == needle
  }

  predicate Contains<T(==)>(hay: seq<T>, needle: seq<T>) {
    exists i :: 0 <= i <= |hay| && OccursAt(hay, needle, i)
  }

  /** ASCII lower case. */
  function Lower(s: string): string {
    seq(|s|, i requires 0 <= i < |s| => if 'A' <= s[i] <= 'Z' then (s[i] as int + 32) as char else s[i])
  }

  /** It folds the twenty-six letters, one by one, and nothing else. */
  lemma LowerExactly(s: string)
    ensures |Lower(s)| == |s|
    ensures forall i :: 0 <= i < |s| ==>
              if 65 <= s[i] as int <= 90 then Lower(s)[i] as int == s[i] as int + 32 else Lower(s)[i] == s[i]
  {
  }

  method FindIn<T(==)>(hay: seq<T>, needle: seq<T>) returns (found: bool)
    ensures found == Contains(hay, needle)
  {
    var i := 0;
    while i <= |hay|
      invariant 0 <= i <= |hay| + 1
      invariant forall k :: 0 <= k < i ==> !OccursAt(hay, needle, k)
    {
      if OccursAt(hay, needle, i) { return true; }
      i := i + 1;
    }
    found := false;
  }

  /** What occurs in a text still occurs when more is written around it. */
  lemma ContainsGrows<T>(before: seq<T>, hay: seq<T>, after: seq<T>, needle: seq<T>)
    requires Contains(hay, needle)
    ensures Contains(before + hay + after, needle)
  {
    var i :| 0 <= i <= |hay| && OccursAt(hay, needle, i);
    var long := before + hay + after;
    assert long[|before| + i..|before| + i + |needle|] == hay[i..i + |needle|];
    assert OccursAt(long, needle, |before| + i);
  }
}
