/** The string operations the data layer uses: `str.replace('\n', '')` on
    reference labels, and `'/'.join(...)` when composing the request path,
    together with the path reading (`SplitPath`) that undoes it. */
module Text {
  import opened Base

  predicate NotNewline(c: char) { c != '\n' }

  /** `s.replace('\n', '')`: every line feed removed, every other character
      kept in order. */
  function StripNewlines(s: string): (r: string)
    ensures r == Filter(s, NotNewline)
    ensures '\n' !in r
    ensures |r| <= |s|
    ensures forall c :: c != '\n' ==> multiset(r)[c] == multiset(s)[c]
  {
    if |s| == 0 then ""
    else
      assert s == [s[0]] + s[1..];
      (if s[0] == '\n' then "" else [s[0]]) + StripNewlines(s[1..])
  }

  /** A string with no line feed comes out unchanged; in particular the
      operation is idempotent. */
  lemma {:induction false} StripNewlinesKeepsCleanText(s: string)
    requires '\n' !in s
    ensures StripNewlines(s) == s
  {
    if |s| != 0 {
      assert s[0] in s;
      assert forall c :: c in s[1..] ==> c in s;
      StripNewlinesKeepsCleanText(s[1..]);
      assert s == [s[0]] + s[1..];
    }
  }

  /** `'/'.join(parts)`. */
  function JoinPath(parts: seq<string>): string
  {
    if |parts| == 0 then ""
    else if |parts| == 1 then parts[0]
    else parts[0] + "/" + JoinPath(parts[1..])
  }

  /** The segments of a path, as the remote API reads it: `s.split('/')`. */
  function SplitPath(s: string): (r: seq<string>)
    ensures |r| >= 1
  {
    if |s| == 0 then [""]
    else
      var rest := SplitPath(s[1..]);
      if s[0] == '/' then [""] + rest else [[s[0]] + rest[0]] + rest[1..]
  }

  /** Joining two non-empty blocks is joining each and putting one
      separator between them. */
  lemma {:induction false} JoinPathAppend(a: seq<string>, b: seq<string>)
    requires |a| > 0 && |b| > 0
    ensures JoinPath(a + b) == JoinPath(a) + "/" + JoinPath(b)
  {
    if |a| == 1 {
      assert (a + b)[1..] == b;
    } else {
      assert (a + b)[1..] == a[1..] + b;
      JoinPathAppend(a[1..], b);
    }
  }

  lemma {:induction false} SplitPathPrefix(x: string, s: string)
    requires '/' !in x
    ensures SplitPath(x + s) == [x + SplitPath(s)[0]] + SplitPath(s)[1..]
  {
    if |x| == 0 {
      var r := SplitPath(s);
      assert x + s == s && x + r[0] == r[0];
      assert r == [r[0]] + r[1..];
    } else {
      assert (x + s)[1..] == x[1..] + s;
      assert x[0] in x;
      assert forall c :: c in x[1..] ==> c in x;
      SplitPathPrefix(x[1..], s);
      assert [x[0]] + (x[1..] + SplitPath(s)[0]) == x + SplitPath(s)[0];
    }
  }

  /** Reading back a joined path gives the segments that were joined, as
      long as there is at least one and none contains the separator. */
  lemma {:induction false} SplitJoinPath(parts: seq<string>)
    requires |parts| > 0
    requires forall k :: 0 <= k < |parts| ==> '/' !in parts[k]
    ensures SplitPath(JoinPath(parts)) == parts
  {
    if |parts| == 1 {
      SplitPathPrefix(parts[0], "");
      assert parts[0] + "" == parts[0];
    } else {
      var rest := JoinPath(parts[1..]);
      SplitJoinPath(parts[1..]);
      assert parts[0] + "/" + rest == parts[0] + ("/" + rest);
      SplitPathPrefix(parts[0], "/" + rest);
      assert ("/" + rest)[1..] == rest;
      assert SplitPath("/" + rest) == [""] + parts[1..];
      assert parts[0] + "" == parts[0];
      assert parts == [parts[0]] + parts[1..];
    }
  }
}
