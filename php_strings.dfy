/** The PHP string and array built-ins the client core relies on, for '/'-separated paths:
    `basename`, `explode('/', …)`, `join('/', …)`, `array_diff` and `strstr(…, …, TRUE)`. */
module PhpStrings {
  import opened Wrappers

  /** `s` with all its trailing '/' characters removed. */
  function TrimTrailingSlashes(s: string): (r: string)
    ensures |r| <= |s| && r == s[..|r|]
    ensures r == [] || r[|r| - 1] != '/'
    ensures forall i :: |r| <= i < |s| ==> s[i] == '/'
  {
    if |s| > 0 && s[|s| - 1] == '/' then TrimTrailingSlashes(s[..|s| - 1]) else s
  }

  /** The longest suffix of `s` that holds no '/'. */
  function LastComponent(s: string): (r: string)
    ensures |r| <= |s| && r == s[|s| - |r|..]
    ensures '/' !in r
    ensures |r| < |s| ==> s[|s| - |r| - 1] == '/'
  {
    if s == [] || s[|s| - 1] == '/' then []
    else
      var r' := LastComponent(s[..|s| - 1]);
      assert s[..|s| - 1][|s| - 1 - |r'|..] + [s[|s| - 1]] == s[|s| - 1 - |r'|..];
      r' + [s[|s| - 1]]
  }

  /** PHP's `basename($path, $suffix)`: trailing slashes are ignored, the component after the
      last '/' is kept, and `suffix` is cut from its end when it is a proper suffix of it. */
  function Basename(path: string, suffix: string): (r: string)
    ensures '/' !in r
  {
    var c := LastComponent(TrimTrailingSlashes(path));
    if |suffix| < |c| && c[|c| - |suffix|..] == suffix then c[..|c| - |suffix|] else c
  }

  /** The last component of a path to `leaf` is `leaf`. */
  lemma LastComponentOfChild(dir: string, leaf: string)
    requires '/' !in leaf
    ensures LastComponent(dir + "/" + leaf) == leaf
  {
    var path := dir + "/" + leaf;
    assert path[|dir|] == '/';
    assert forall i :: |dir| < i < |path| ==> path[i] == leaf[i - |dir| - 1];
    assert path[|path| - |leaf|..] == leaf;
  }

  /** Trailing-slash trimming leaves a path that does not end in '/' alone. */
  lemma TrimNoTrailingSlash(s: string)
    requires s != [] && s[|s| - 1] != '/'
    ensures TrimTrailingSlashes(s) == s
  {
  }

  /** The basename of a file `name + suffix` inside any directory is `name`. */
  lemma BasenameOfChild(dir: string, name: string, suffix: string)
    requires name != [] && '/' !in name && '/' !in suffix
    ensures Basename(dir + "/" + name + suffix, suffix) == name
  {
    var leaf := name + suffix;
    var path := dir + "/" + leaf;
    assert dir + "/" + name + suffix == path;
    assert '/' !in leaf by {
      forall i | 0 <= i < |leaf| ensures leaf[i] != '/' {
        if i < |name| { assert leaf[i] == name[i]; } else { assert leaf[i] == suffix[i - |name|]; }
      }
    }
    assert path[|path| - 1] == leaf[|leaf| - 1];
    TrimNoTrailingSlash(path);
    LastComponentOfChild(dir, leaf);
    assert leaf[|leaf| - |suffix|..] == suffix;
    assert leaf[..|leaf| - |suffix|] == name;
  }

  /** PHP's `explode('/', s)`: the pieces of `s` between its '/' characters. */
  function Split(s: string): (r: seq<string>)
    ensures |r| > 0
    ensures forall k :: 0 <= k < |r| ==> '/' !in r[k]
  {
    if s == [] then [""]
    else
      var rest := Split(s[1..]);
      if s[0] == '/' then [""] + rest else [[s[0]] + rest[0]] + rest[1..]
  }

  /** PHP's `join('/', segs)`. */
  function Join(segs: seq<string>): string {
    if segs == [] then ""
    else if |segs| == 1 then segs[0]
    else segs[0] + "/" + Join(segs[1..])
  }

  /** Joining the pieces of `s` gives `s` back. */
  lemma {:induction false} JoinSplit(s: string)
    ensures Join(Split(s)) == s
  {
    if s != [] {
      var rest := Split(s[1..]);
      JoinSplit(s[1..]);
      if s[0] == '/' {
        assert Split(s) == [""] + rest;
        assert Join(Split(s)) == "" + "/" + Join(rest);
      } else if |rest| == 1 {
        assert Split(s) == [[s[0]] + rest[0]];
      } else {
        var segs := [[s[0]] + rest[0]] + rest[1..];
        assert Split(s) == segs;
        assert segs[1..] == rest[1..];
        assert Join(rest) == rest[0] + "/" + Join(rest[1..]);
        assert Join(segs) == [s[0]] + rest[0] + "/" + Join(rest[1..]);
      }
    }
  }

  /** Splitting `a + t`, where `a` holds no '/', glues `a` onto the first piece of `t`. */
  lemma {:induction false} SplitAfterSegment(a: string, t: string)
    requires '/' !in a
    ensures Split(a + t) == [a + Split(t)[0]] + Split(t)[1..]
  {
    if a == [] {
      assert a + t == t;
      assert a + Split(t)[0] == Split(t)[0];
      assert Split(t) == [Split(t)[0]] + Split(t)[1..];
    } else {
      var u := a + t;
      assert a[0] in a;
      assert u[0] == a[0];
      assert u[1..] == a[1..] + t;
      assert forall c :: c in a[1..] ==> c in a;
      SplitAfterSegment(a[1..], t);
      var st := Split(t);
      var rest := Split(u[1..]);
      assert rest == [a[1..] + st[0]] + st[1..];
      assert Split(u) == [[u[0]] + rest[0]] + rest[1..];
      assert [a[0]] + (a[1..] + st[0]) == a + st[0];
    }
  }

  /** Pieces without '/' survive a join followed by a split. */
  lemma {:induction false} SplitJoin(segs: seq<string>)
    requires |segs| > 0
    requires forall k :: 0 <= k < |segs| ==> '/' !in segs[k]
    ensures Split(Join(segs)) == segs
  {
    if |segs| == 1 {
      SplitAfterSegment(segs[0], "");
      assert segs[0] + "" == segs[0];
    } else {
      var tail := Join(segs[1..]);
      SplitJoin(segs[1..]);
      assert ("/" + tail)[1..] == tail;
      assert Split("/" + tail) == [""] + Split(tail);
      SplitAfterSegment(segs[0], "/" + tail);
      assert Join(segs) == segs[0] + ("/" + tail);
      assert Split(Join(segs)) == [segs[0] + ""] + Split(tail);
      assert segs[0] + "" == segs[0];
      assert segs == [segs[0]] + segs[1..];
    }
  }

  /** PHP's `array_diff(a, b)` read back in order: the elements of `a` that occur nowhere in
      `b`, in their order in `a`. */
  function Diff(a: seq<string>, b: seq<string>): (r: seq<string>)
    ensures |r| <= |a|
  {
    if a == [] then [] else (if a[0] in b then [] else [a[0]]) + Diff(a[1..], b)
  }

  /** An element survives the difference exactly when it is in `a` and not in `b`. */
  lemma {:induction false} DiffMembership(a: seq<string>, b: seq<string>, x: string)
    ensures x in Diff(a, b) <==> x in a && x !in b
  {
    if a != [] {
      DiffMembership(a[1..], b, x);
      assert a == [a[0]] + a[1..];
    }
  }

  /** The difference is taken element by element: it distributes over concatenation. */
  lemma {:induction false} DiffConcat(a: seq<string>, c: seq<string>, b: seq<string>)
    ensures Diff(a + c, b) == Diff(a, b) + Diff(c, b)
  {
    if a == [] {
      assert a + c == c;
    } else {
      assert (a + c)[0] == a[0];
      assert (a + c)[1..] == a[1..] + c;
      DiffConcat(a[1..], c, b);
    }
  }

  /** `s[j..]` starts with `needle`. */
  predicate MatchAt(s: string, needle: string, j: nat) {
    j + |needle| <= |s| && s[j..j + |needle|] == needle
  }

  /** The first position at or after `from` where `needle` occurs in `s`. */
  function IndexOfFrom(s: string, needle: string, from: nat): (r: Option<nat>)
    requires from <= |s|
    ensures r.Some? ==> from <= r.value && MatchAt(s, needle, r.value)
    ensures r.Some? ==> forall j :: from <= j < r.value ==> !MatchAt(s, needle, j)
    ensures r.None? ==> forall j :: from <= j <= |s| ==> !MatchAt(s, needle, j)
    decreases |s| - from
  {
    if MatchAt(s, needle, from) then Some(from)
    else if from == |s| then None
    else IndexOfFrom(s, needle, from + 1)
  }

  /** PHP's `strstr($s, $needle, TRUE)`: the part of `s` before the first occurrence of
      `needle`, or None (PHP's `false`) when it does not occur. */
  function StrBefore(s: string, needle: string): (r: Option<string>)
    ensures r.Some? ==> |r.value| <= |s| && r.value == s[..|r.value|] && MatchAt(s, needle, |r.value|)
    ensures r.Some? ==> forall j :: 0 <= j < |r.value| ==> !MatchAt(s, needle, j)
    ensures r.None? ==> forall j :: 0 <= j <= |s| ==> !MatchAt(s, needle, j)
  {
    match IndexOfFrom(s, needle, 0)
    case Some(i) => Some(s[..i])
    case None => None
  }

  /** `strstr(head + needle, needle, TRUE)` is `head` when the needle does not start earlier. */
  lemma StrBeforeFirst(head: string, needle: string)
    requires forall j :: 0 <= j < |head| ==> !MatchAt(head + needle, needle, j)
    ensures StrBefore(head + needle, needle) == Some(head)
  {
    var s := head + needle;
    assert s[|head|..|head| + |needle|] == needle;
    assert MatchAt(s, needle, |head|);
    assert s[..|head|] == head;
  }
}
