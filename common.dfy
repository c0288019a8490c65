/** Values and helpers that stand for the JavaScript semantics the handlers rely on:
    optional fields, truthiness, destructuring defaults, `split` and `join`. */
module Common {

  /** An optional value; `None` stands for `undefined` (a field the request did not carry). */
  datatype Option<+T> = None | Some(value: T)

  /** A JSON value as it arrives in a request body or an API response. Objects and arrays
      nested inside a field are not looked into. */
  datatype Json = Null | Bool(b: bool) | Num(n: int) | Str(s: string) | Composite

  /** JavaScript truthiness of an optional string: `undefined` and `''` are falsy. */
  predicate IsTruthyString(o: Option<string>)
  {
    o.Some? && o.value != ""
  }

  /** JavaScript truthiness of an optional number: `undefined` and `0` are falsy. */
  predicate IsTruthyInt(o: Option<int>)
  {
    o.Some? && o.value != 0
  }

  /** A destructuring default `{ x = d } = obj`: `d` applies only when `x` is `undefined`. */
  function Default<T>(o: Option<T>, d: T): (r: T)
    ensures o.None? ==> r == d
    ensures o.Some? ==> r == o.value
  {
    match o
    case None => d
    case Some(v) => v
  }

  /** `Array.prototype.join` with a one-character separator. */
  function Join(parts: seq<string>, sep: char): string
  {
    if |parts| == 0 then ""
    else if |parts| == 1 then parts[0]
    else parts[0] + [sep] + Join(parts[1..], sep)
  }

  /** `String.prototype.split` with a one-character separator: the pieces between the
      separators, always at least one, none of them containing the separator. */
  function Split(s: string, sep: char): (parts: seq<string>)
    ensures |parts| >= 1
    ensures forall i :: 0 <= i < |parts| ==> sep !in parts[i]
    ensures |parts| == 1 ==> parts[0] == s
  {
    if s == [] then [""]
    else
      var rest := Split(s[1..], sep);
      if s[0] == sep then [""] + rest
      else [[s[0]] + rest[0]] + rest[1..]
  }

  /** Joining the pieces of a split with the same separator gives the string back. */
  lemma {:induction false} SplitJoin(s: string, sep: char)
    ensures Join(Split(s, sep), sep) == s
  {
    if s != [] {
      var rest := Split(s[1..], sep);
      SplitJoin(s[1..], sep);
      if s[0] == sep {
        assert Split(s, sep) == [""] + rest;
        assert ([""] + rest)[1..] == rest;
        assert Join([""] + rest, sep) == "" + [sep] + Join(rest, sep);
      } else {
        var parts := [[s[0]] + rest[0]] + rest[1..];
        assert Split(s, sep) == parts;
        if |rest| == 1 {
          assert Join(parts, sep) == [s[0]] + rest[0];
        } else {
          assert parts[1..] == rest[1..];
          assert Join(rest, sep) == rest[0] + [sep] + Join(rest[1..], sep);
          assert Join(parts, sep) == [s[0]] + rest[0] + [sep] + Join(rest[1..], sep);
        }
        assert s == [s[0]] + s[1..];
      }
    }
  }

  /** A prefix free of the separator becomes the head of the first piece. */
  lemma {:induction false} SplitPrefix(p: string, q: string, sep: char)
    requires sep !in p
    ensures Split(p + q, sep) == [p + Split(q, sep)[0]] + Split(q, sep)[1..]
  {
    var tail := Split(q, sep);
    if p != [] {
      assert (p + q)[1..] == p[1..] + q;
      SplitPrefix(p[1..], q, sep);
      var rest := Split(p[1..] + q, sep);
      assert rest == [p[1..] + tail[0]] + tail[1..];
      assert rest[0] == p[1..] + tail[0] && rest[1..] == tail[1..];
      assert (p + q)[0] == p[0] && p[0] != sep;
      assert Split(p + q, sep) == [[p[0]] + rest[0]] + rest[1..];
      assert p == [p[0]] + p[1..];
      assert [p[0]] + rest[0] == p + tail[0];
    } else {
      assert p + q == q;
      assert p + tail[0] == tail[0];
      assert tail == [tail[0]] + tail[1..];
    }
  }

  /** The pieces of `p + sep + q`, where `p` holds no separator, are `p` and then those of `q`. */
  lemma SplitAtSeparator(p: string, q: string, sep: char)
    requires sep !in p
    ensures Split(p + [sep] + q, sep) == [p] + Split(q, sep)
  {
    SplitPrefix(p, [sep] + q, sep);
    assert p + [sep] + q == p + ([sep] + q);
    assert ([sep] + q)[1..] == q;
    assert ([sep] + q)[0] == sep;
    var pieces := Split([sep] + q, sep);
    assert pieces == [""] + Split(q, sep);
    assert pieces[0] == "" && pieces[1..] == Split(q, sep);
    assert p + pieces[0] == p;
  }

  /** A string free of the separator splits into itself alone. */
  lemma SplitNoSeparator(s: string, sep: char)
    requires sep !in s
    ensures Split(s, sep) == [s]
  {
    SplitPrefix(s, "", sep);
    assert s + "" == s;
    assert Split("", sep) == [""];
    assert s + Split("", sep)[0] == s;
  }

  /** `m` is the least element of `s`. */
  predicate IsLeast(m: int, s: set<int>)
  {
    m in s && forall x :: x in s ==> m <= x
  }

  /** The least element of a finite set of integers that has a member. */
  function Least(ids: set<int>): (m: int)
    requires exists y :: y in ids
    ensures IsLeast(m, ids)
  {
    var y :| y in ids;
    LeastExists(ids, y);
    var m :| IsLeast(m, ids);
    m
  }

  lemma {:induction false} LeastExists(ids: set<int>, y: int)
    requires y in ids
    ensures exists m :: IsLeast(m, ids)
    decreases ids
  {
    var smaller := set x | x in ids && x < y;
    if z :| z in smaller {
      LeastExists(smaller, z);
      var m :| IsLeast(m, smaller);
      forall x | x in ids ensures m <= x {
        if x < y { assert x in smaller; }
      }
      assert IsLeast(m, ids);
    } else {
      forall x | x in ids ensures y <= x {
        assert x !in smaller;
      }
      assert IsLeast(y, ids);
    }
  }
}
