/** Dotted keys: `"block1.conv.weight"` names a leaf three levels deep.
    `Split` is the string library's `split(".")` and `Join` is
    `join(".")`; `First` and `ChildKey` are the two halves `from_map`
    takes a key apart into. */
module DottedKeys {

  /** `s.split(".")`: the pieces between dots, in order.  There is always at
      least one piece, and no piece holds a dot. */
  function Split(s: string): (parts: seq<string>)
    ensures |parts| >= 1
    ensures forall i | 0 <= i < |parts| :: '.' !in parts[i]
    decreases |s|
  {
    if s == [] then [""]
    else
      var tail := Split(s[1..]);
      if s[0] == '.' then [""] + tail
      else [[s[0]] + tail[0]] + tail[1..]
  }

  /** `parts.join(".")`: the pieces with a dot between neighbours. */
  function Join(parts: seq<string>): string
  {
    if |parts| == 0 then ""
    else if |parts| == 1 then parts[0]
    else parts[0] + "." + Join(parts[1..])
  }

  /** The first segment of a key (`split.next().unwrap()`). */
  function First(key: string): string
  {
    Split(key)[0]
  }

  /** Whether the key has a second segment (`split.next()` is `Some`). */
  predicate HasDot(key: string)
  {
    |Split(key)| > 1
  }

  /** The key with its first segment removed: the remaining segments
      rejoined with dots (`key.split(".").skip(1).join(".")`). */
  function ChildKey(key: string): string
  {
    Join(Split(key)[1..])
  }

  /** All pieces of a split are free of dots. */
  predicate DotFreeParts(parts: seq<string>)
  {
    forall i | 0 <= i < |parts| :: '.' !in parts[i]
  }

  /** Splitting and rejoining gives back the key. */
  lemma {:induction false} JoinSplit(s: string)
    ensures Join(Split(s)) == s
    decreases |s|
  {
    if s != [] {
      var tail := Split(s[1..]);
      JoinSplit(s[1..]);
      if s[0] == '.' {
        assert s == [s[0]] + s[1..];
        assert Split(s) == [""] + tail;
        assert Join(Split(s)) == "" + "." + Join(tail);
      } else {
        var parts := Split(s);
        assert parts == [[s[0]] + tail[0]] + tail[1..];
        if |tail| == 1 {
          assert Join(parts) == [s[0]] + tail[0];
          assert Join(tail) == tail[0];
        } else {
          assert parts[1..] == tail[1..];
          assert Join(parts) == [s[0]] + tail[0] + "." + Join(tail[1..]);
          assert Join(tail) == tail[0] + "." + Join(tail[1..]);
        }
        assert s == [s[0]] + s[1..];
      }
    }
  }

  /** Prepending a dot-free character to a key extends its first piece. */
  lemma SplitCons(c: char, s: string)
    requires c != '.'
    ensures Split([c] + s) == [[c] + Split(s)[0]] + Split(s)[1..]
  {
    assert ([c] + s)[1..] == s;
  }

  /** A dot-free segment, a dot and a rest split into that segment followed
      by the pieces of the rest. */
  lemma {:induction false} SplitSegmentDot(f: string, r: string)
    requires '.' !in f
    ensures Split(f + "." + r) == [f] + Split(r)
    decreases |f|
  {
    if f == [] {
      assert f + "." + r == ['.'] + r;
      assert (['.'] + r)[1..] == r;
    } else {
      assert f + "." + r == [f[0]] + (f[1..] + "." + r);
      SplitCons(f[0], f[1..] + "." + r);
      SplitSegmentDot(f[1..], r);
      assert f == [f[0]] + f[1..];
    }
  }

  /** Joining dot-free pieces and splitting again gives back the pieces. */
  lemma {:induction false} SplitJoin(parts: seq<string>)
    requires |parts| >= 1 && DotFreeParts(parts)
    ensures Split(Join(parts)) == parts
    decreases |parts|
  {
    if |parts| == 1 {
      SplitDotFree(parts[0]);
    } else {
      SplitJoin(parts[1..]);
      SplitSegmentDot(parts[0], Join(parts[1..]));
      assert parts == [parts[0]] + parts[1..];
    }
  }

  /** A key without a dot is a single piece. */
  lemma {:induction false} SplitDotFree(s: string)
    requires '.' !in s
    ensures Split(s) == [s]
    decreases |s|
  {
    if s != [] {
      SplitDotFree(s[1..]);
      assert s == [s[0]] + s[1..];
    }
  }

  /** A key has a second segment exactly when it contains a dot. */
  lemma HasDotIff(key: string)
    ensures HasDot(key) <==> '.' in key
  {
    if '.' in key {
      JoinSplit(key);
    } else {
      SplitDotFree(key);
    }
  }

  /** A key without a second segment is its own first segment; a key with
      one is its first segment, a dot, and its child key.  The child key is
      thus the key with the first segment and the dot removed. */
  lemma KeyParts(key: string)
    ensures !HasDot(key) ==> First(key) == key
    ensures HasDot(key) ==> key == First(key) + "." + ChildKey(key)
    ensures HasDot(key) ==> ChildKey(key) == key[|First(key)| + 1..]
    ensures '.' !in First(key)
  {
    JoinSplit(key);
    var parts := Split(key);
    if |parts| > 1 {
      assert Join(parts) == parts[0] + "." + Join(parts[1..]);
      assert key[|First(key)| + 1..] == (First(key) + "." + ChildKey(key))[|First(key)| + 1..];
    }
  }

  /** The key `f.r`, for a dot-free `f`, has first segment `f` and child key
      `r`. */
  lemma SegmentDot(f: string, r: string)
    requires '.' !in f
    ensures HasDot(f + "." + r) && First(f + "." + r) == f && ChildKey(f + "." + r) == r
  {
    SplitSegmentDot(f, r);
    JoinSplit(r);
    assert Split(f + "." + r)[1..] == Split(r);
  }

  /** Two dotted keys with the same first segment and the same child key are
      the same key. */
  lemma ChildKeyInjective(a: string, b: string)
    requires HasDot(a) && HasDot(b) && First(a) == First(b) && ChildKey(a) == ChildKey(b)
    ensures a == b
  {
    KeyParts(a);
    KeyParts(b);
  }

  /** `a` is a segment-prefix of `b`: `b` is `a`, a dot, and more. */
  predicate SegmentPrefix(a: string, b: string)
  {
    |a| < |b| && b[..|a|] == a && b[|a|] == '.'
  }

  /** Joining with one more piece at the end adds a dot and that piece. */
  lemma {:induction false} JoinSnoc(parts: seq<string>, last: string)
    requires |parts| >= 1
    ensures Join(parts + [last]) == Join(parts) + "." + last
    decreases |parts|
  {
    if |parts| > 1 {
      JoinSnoc(parts[1..], last);
      assert (parts + [last])[1..] == parts[1..] + [last];
    }
  }

  /** A dotted key's first segment is a segment-prefix of it. */
  lemma FirstSegmentPrefix(k: string)
    requires HasDot(k)
    ensures SegmentPrefix(First(k), k)
  {
    KeyParts(k);
    var f := First(k);
    assert k == f + "." + ChildKey(k);
    assert k[..|f|] == f;
  }

  /** Splitting off a segment-prefix: `b` is `a + "." + r`. */
  lemma SegmentPrefixParts(a: string, b: string)
    requires SegmentPrefix(a, b)
    ensures b == a + "." + b[|a| + 1..]
  {
  }

  /** The longest key length in a set of keys, 0 for none. */
  ghost function MaxLen(keys: set<string>): (n: nat)
    ensures forall k | k in keys :: |k| <= n
    ensures keys != {} ==> exists k :: k in keys && |k| == n
    decreases keys
  {
    if keys == {} then 0
    else
      var k :| k in keys;
      var rest := MaxLen(keys - {k});
      if |k| > rest then |k| else rest
  }

  /** A subset has no longer keys than the whole set. */
  lemma MaxLenSubset(a: set<string>, b: set<string>)
    requires a <= b
    ensures MaxLen(a) <= MaxLen(b)
  {
    if a != {} {
      var k :| k in a && |k| == MaxLen(a);
      assert k in b;
    }
  }
}
