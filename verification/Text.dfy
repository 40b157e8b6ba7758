/**
 Byte strings as the two programs use them: C strings that stop at the first
 NUL, `std::string::find`, `std::remove`, and the notion of one list being a
 subsequence of another.
 */
module Text {
  /** One `char` of a `std::string`. */
  type byte = c: char | c as int < 256 witness 'a'

  type Bytes = seq<byte>

  const NUL: byte := '\0'
  const NEWLINE: byte := '\n'
  const RETURN: byte := '\r'
  const BAR: byte := '|'

  datatype Option<+T> = None | Some(value: T)

  // ---- C strings ----

  /** What `std::string::assign(const char*)` reads out of the memory `s`. */
  function CStr(s: Bytes): (r: Bytes)
    ensures r <= s
    ensures NUL !in r
    ensures |r| < |s| ==> s[|r|] == NUL
  {
    if s == [] || s[0] == NUL then [] else [s[0]] + CStr(s[1..])
  }

  /** Memory that holds a NUL-free text and then a NUL reads back as that text. */
  lemma {:induction false} CStrStopsAtNul(s: Bytes, rest: Bytes)
    requires NUL !in s
    ensures CStr(s + [NUL] + rest) == s
    ensures CStr(s) == s
  {
    if s != [] {
      assert s[0] in s;
      assert (s + [NUL] + rest)[1..] == s[1..] + [NUL] + rest;
      CStrStopsAtNul(s[1..], rest);
    }
  }

  function Zeros(n: nat): (r: Bytes)
    ensures |r| == n && forall i :: 0 <= i < n ==> r[i] == NUL
  {
    seq(n, _ => NUL)
  }

  // ---- searching ----

  predicate OccursAt(s: Bytes, t: Bytes, i: int) {
    0 <= i && i + |t| <= |s| && s[i..i + |t|] == t
  }

  /** `s.find(t) != std::string::npos`. */
  predicate Contains(s: Bytes, t: Bytes) {
    exists i :: 0 <= i <= |s| && OccursAt(s, t, i)
  }

  // ---- concatenation ----

  function Concat(parts: seq<Bytes>): Bytes {
    if parts == [] then [] else parts[0] + Concat(parts[1..])
  }

  lemma {:induction false} ConcatAppend(a: seq<Bytes>, b: seq<Bytes>)
    ensures Concat(a + b) == Concat(a) + Concat(b)
  {
    if a == [] {
      assert a + b == b;
    } else {
      assert (a + b)[1..] == a[1..] + b;
      ConcatAppend(a[1..], b);
    }
  }

  lemma ConcatLast(a: seq<Bytes>, x: Bytes)
    ensures Concat(a + [x]) == Concat(a) + x
  {
    ConcatAppend(a, [x]);
    assert Concat([x]) == x + Concat([]);
  }

  /** Every part lies inside the concatenation, at the length of what precedes it. */
  lemma ConcatSlice(parts: seq<Bytes>, i: nat)
    requires i < |parts|
    ensures |Concat(parts[..i])| + |parts[i]| <= |Concat(parts)|
    ensures Concat(parts)[|Concat(parts[..i])|..|Concat(parts[..i])| + |parts[i]|] == parts[i]
  {
    assert parts == parts[..i] + ([parts[i]] + parts[i + 1..]);
    ConcatAppend(parts[..i], [parts[i]] + parts[i + 1..]);
    assert ([parts[i]] + parts[i + 1..])[1..] == parts[i + 1..];
  }

  // ---- removing a character ----

  /** `s.erase(std::remove(s.begin(), s.end(), c), s.end())`. */
  function Remove(s: Bytes, c: byte): Bytes {
    if s == [] then []
    else if s[0] == c then Remove(s[1..], c)
    else [s[0]] + Remove(s[1..], c)
  }

  /** Erasing a character leaves every other character, in its order and number. */
  lemma {:induction false} RemoveOnlyRemoves(s: Bytes, c: byte)
    ensures c !in Remove(s, c)
    ensures multiset(Remove(s, c)) == multiset(s)[c := 0]
    ensures Embeds(Remove(s, c), s)
  {
    if s == [] {
      assert multiset(Remove(s, c)) == multiset(s)[c := 0];
      EmbedsNothing<byte>(s);
    } else {
      RemoveOnlyRemoves(s[1..], c);
      assert s == [s[0]] + s[1..];
      var tail := Remove(s[1..], c);
      assert multiset(s) == multiset{s[0]} + multiset(s[1..]);
      if s[0] == c {
        EmbedsCons(tail, s[1..], s[0], false);
        assert multiset(Remove(s, c)) == multiset(s)[c := 0];
      } else {
        EmbedsCons(tail, s[1..], s[0], true);
        assert multiset([s[0]] + tail) == multiset{s[0]} + multiset(tail);
        assert multiset(Remove(s, c)) == multiset(s)[c := 0];
      }
    }
  }

  lemma {:induction false} RemoveNothing(s: Bytes, c: byte)
    requires c !in s
    ensures Remove(s, c) == s
  {
    if s != [] {
      assert s[0] in s;
      RemoveNothing(s[1..], c);
    }
  }

  // ---- subsequences ----

  /** `w` is obtained from `s` by deleting elements: in order, each used at most once. */
  predicate Subsequence<T(==)>(w: seq<T>, s: seq<T>)
    decreases |s|
  {
    || w == []
    || (&& s != []
        && (|| Subsequence(w, s[..|s| - 1])
            || (w[|w| - 1] == s[|s| - 1] && Subsequence(w[..|w| - 1], s[..|s| - 1]))))
  }

  lemma SubsequenceGrows<T>(w: seq<T>, s: seq<T>, x: T)
    requires Subsequence(w, s)
    ensures Subsequence(w, s + [x])
    ensures Subsequence(w + [x], s + [x])
  {
    assert (s + [x])[..|s|] == s;
    assert (w + [x])[..|w|] == w;
  }

  /** A subsequence is no longer, and only the whole is as long. */
  lemma {:induction false} SubsequenceLength<T>(w: seq<T>, s: seq<T>)
    requires Subsequence(w, s)
    ensures |w| <= |s|
    ensures |w| == |s| ==> w == s
    decreases |s|
  {
    if w != [] && s != [] {
      var n := |s| - 1;
      if Subsequence(w, s[..n]) {
        SubsequenceLength(w, s[..n]);
      } else {
        SubsequenceLength(w[..|w| - 1], s[..n]);
        assert w == w[..|w| - 1] + [w[|w| - 1]] && s == s[..n] + [s[n]];
      }
    }
  }

  /** The positions that witness a subsequence: strictly increasing, one per element. */
  ghost predicate Places<T(!new)>(w: seq<T>, s: seq<T>, at: seq<nat>) {
    && |at| == |w|
    && (forall i :: 0 <= i < |at| ==> at[i] < |s| && s[at[i]] == w[i])
    && (forall i, j :: 0 <= i < j < |at| ==> at[i] < at[j])
  }

  ghost predicate Embeds<T(!new)>(w: seq<T>, s: seq<T>) {
    exists at: seq<nat> :: Places(w, s, at)
  }

  lemma EmbedsNothing<T(!new)>(s: seq<T>)
    ensures Embeds([], s)
  {
    assert Places([], s, []);
  }

  lemma EmbedsCons<T(!new)>(w: seq<T>, s: seq<T>, x: T, used: bool)
    requires Embeds(w, s)
    ensures Embeds(if used then [x] + w else w, [x] + s)
  {
    var at: seq<nat> :| Places(w, s, at);
    var shifted: seq<nat> := seq(|at|, i requires 0 <= i < |at| => at[i] + 1);
    assert Places(w, [x] + s, shifted);
    if used {
      assert Places([x] + w, [x] + s, [0] + shifted);
    }
  }

  /** The recursive definition means exactly: strictly increasing positions exist. */
  lemma {:induction false} SubsequenceMeansPlaces<T(!new)>(w: seq<T>, s: seq<T>)
    ensures Subsequence(w, s) <==> Embeds(w, s)
    decreases |s|
  {
    if w == [] {
      EmbedsNothing(s);
    } else if s == [] {
      forall at: seq<nat> ensures !Places(w, s, at) {
        if |at| == |w| {
          assert at[0] >= |s|;
        }
      }
    } else {
      var front := s[..|s| - 1];
      SubsequenceMeansPlaces(w, front);
      SubsequenceMeansPlaces(w[..|w| - 1], front);
      if Subsequence(w, s) {
        if Subsequence(w, front) {
          var at: seq<nat> :| Places(w, front, at);
          assert Places(w, s, at);
        } else {
          var at: seq<nat> :| Places(w[..|w| - 1], front, at);
          assert Places(w, s, at + [|s| - 1]);
        }
      }
      if Embeds(w, s) {
        var at: seq<nat> :| Places(w, s, at);
        var last := at[|at| - 1];
        if last == |s| - 1 {
          assert Places(w[..|w| - 1], front, at[..|at| - 1]);
        } else {
          assert Places(w, front, at);
        }
      }
    }
  }

  lemma EmbedsThrough<T(!new)>(a: seq<T>, b: seq<T>, c: seq<T>)
    requires Embeds(a, b) && Embeds(b, c)
    ensures Embeds(a, c)
  {
    var inner: seq<nat> :| Places(a, b, inner);
    var outer: seq<nat> :| Places(b, c, outer);
    var both: seq<nat> := seq(|inner|, i requires 0 <= i < |inner| => outer[inner[i]]);
    assert Places(a, c, both);
  }
}
