/** Build-artifact names: the version-suffix stripper that stands for
    `preg_replace('/\.\d+$/', '', $name)`, the filter that keeps the builds of one page, and
    the pick of the last surviving build. */
module Versions {

  /** PCRE's `\d` without the `u` modifier: an ASCII digit. */
  predicate IsDigit(c: char) {
    '0' <= c <= '9'
  }

  /** A non-empty run of digits (`\d+`). */
  predicate IsDigits(d: string) {
    |d| > 0 && forall i :: 0 <= i < |d| ==> IsDigit(d[i])
  }

  /** Where the maximal run of digits at the end of `s` begins. */
  function DigitRunStart(s: string): (k: nat)
    ensures k <= |s|
    ensures forall i :: k <= i < |s| ==> IsDigit(s[i])
    ensures k == 0 || !IsDigit(s[k - 1])
  {
    if |s| > 0 && IsDigit(s[|s| - 1]) then DigitRunStart(s[..|s| - 1]) else |s|
  }

  /** The three properties of DigitRunStart determine it. */
  lemma DigitRunStartUnique(s: string, k: nat)
    requires k <= |s|
    requires forall i :: k <= i < |s| ==> IsDigit(s[i])
    requires k == 0 || !IsDigit(s[k - 1])
    ensures DigitRunStart(s) == k
  {
  }

  /** `preg_replace('/\.\d+$/', '', s)`: a final '.' followed by one or more digits up to the
      end is removed; anything else is returned unchanged. */
  function StripVersion(s: string): (r: string)
    ensures |r| <= |s| && r == s[..|r|]
  {
    var k := DigitRunStart(s);
    if 0 < k < |s| && s[k - 1] == '.' then s[..k - 1] else s
  }

  /** `s` is `t`, a '.', and a non-empty run of digits. */
  predicate IsVersionOf(s: string, t: string) {
    |s| > |t| + 1 && s[..|t|] == t && s[|t|] == '.' && IsDigits(s[|t| + 1..])
  }

  /** No '.' in `s` is followed by nothing but digits up to the end. */
  predicate Unversioned(s: string) {
    forall i :: 0 <= i < |s| && s[i] == '.' ==> !IsDigits(s[i + 1..])
  }

  /** Stripping removes exactly the version that was appended. */
  lemma StripVersionOfVersioned(t: string, d: string)
    requires IsDigits(d)
    ensures StripVersion(t + "." + d) == t
  {
    var s := t + "." + d;
    assert s[|t|] == '.';
    assert forall i :: |t| + 1 <= i < |s| ==> s[i] == d[i - |t| - 1];
    DigitRunStartUnique(s, |t| + 1);
    assert s[..|t|] == t;
  }

  /** The meaning of the stripper: `s` strips to `t` exactly when `s` is `t` with a version
      appended, or `s` is `t` itself and carries no version. */
  lemma StripVersionSpec(s: string, t: string)
    ensures StripVersion(s) == t <==> IsVersionOf(s, t) || (s == t && Unversioned(s))
  {
    var k := DigitRunStart(s);
    if IsVersionOf(s, t) {
      assert s == t + "." + s[|t| + 1..];
      StripVersionOfVersioned(t, s[|t| + 1..]);
    } else if s == t && Unversioned(s) {
      assert 0 < k ==> (s[k - 1] == '.' ==> !IsDigits(s[k - 1 + 1..]));
      assert k < |s| ==> IsDigits(s[k..]);
    }
  }

  /** The filter of the production scans: a build name is kept when it strips to `page`. */
  predicate Keeps(name: string, page: string) {
    StripVersion(name) == page
  }

  /** What the filter keeps, without the stripper: the page itself when it carries no version
      of its own, or the page followed by '.' and digits. */
  lemma KeepsIff(name: string, page: string)
    ensures Keeps(name, page) <==> IsVersionOf(name, page) || (name == page && Unversioned(page))
  {
    StripVersionSpec(name, page);
  }

  /** `array_filter` with Keeps: the kept names, in listing order. */
  function Builds(names: seq<string>, page: string): (r: seq<string>)
    ensures |r| <= |names|
  {
    if names == [] then []
    else Builds(names[..|names| - 1], page) + (if Keeps(names[|names| - 1], page) then [names[|names| - 1]] else [])
  }

  /** The filter keeps a name exactly when it is listed and strips to the page. */
  lemma {:induction false} BuildsMembership(names: seq<string>, page: string, x: string)
    ensures x in Builds(names, page) <==> x in names && Keeps(x, page)
  {
    if names != [] {
      var init := names[..|names| - 1];
      BuildsMembership(init, page, x);
      assert names == init + [names[|names| - 1]];
    }
  }

  /** The filter keeps nothing exactly when no listed name strips to the page. */
  lemma {:induction false} BuildsEmpty(names: seq<string>, page: string)
    ensures Builds(names, page) == [] <==> forall i :: 0 <= i < |names| ==> !Keeps(names[i], page)
  {
    if names != [] {
      var init := names[..|names| - 1];
      BuildsEmpty(init, page);
      assert forall i :: 0 <= i < |init| ==> init[i] == names[i];
    }
  }

  /** Index `i` holds the last kept name of the listing. */
  predicate LastKept(names: seq<string>, page: string, i: int) {
    0 <= i < |names| && Keeps(names[i], page) && forall j :: i < j < |names| ==> !Keeps(names[j], page)
  }

  /** The last element of the filtered listing is the last kept name. */
  lemma {:induction false} BuildsLast(names: seq<string>, page: string, i: int)
    requires LastKept(names, page, i)
    ensures Builds(names, page) != [] && Builds(names, page)[|Builds(names, page)| - 1] == names[i]
  {
    var init := names[..|names| - 1];
    if i < |names| - 1 {
      assert !Keeps(names[|names| - 1], page);
      assert Builds(names, page) == Builds(init, page) + [];
      assert LastKept(init, page, i);
      BuildsLast(init, page, i);
    }
  }

  /** When some name is kept, some index is the last kept one. */
  lemma {:induction false} LastKeptExists(names: seq<string>, page: string, i: int)
    requires 0 <= i < |names| && Keeps(names[i], page)
    ensures exists j :: LastKept(names, page, j)
    decreases |names| - i
  {
    if !LastKept(names, page, i) {
      var j :| i < j < |names| && Keeps(names[j], page);
      LastKeptExists(names, page, j);
    }
  }

  /** Lines 66-69 of the script injector (and 149-152 of the style injector): the last kept
      name (`array_pop`), or `page` when nothing is kept. */
  function PickBuild(names: seq<string>, page: string): string {
    var builds := Builds(names, page);
    if builds == [] then page else builds[|builds| - 1]
  }

  /** The pick is the last kept name in listing order, or `page` when no name is kept. */
  lemma PickBuildSpec(names: seq<string>, page: string)
    ensures (forall i :: 0 <= i < |names| ==> !Keeps(names[i], page)) ==> PickBuild(names, page) == page
    ensures forall i :: LastKept(names, page, i) ==> PickBuild(names, page) == names[i]
    ensures PickBuild(names, page) == page || (PickBuild(names, page) in names && Keeps(PickBuild(names, page), page))
  {
    BuildsEmpty(names, page);
    forall i | LastKept(names, page, i) ensures PickBuild(names, page) == names[i] {
      BuildsLast(names, page, i);
    }
    var builds := Builds(names, page);
    if builds != [] {
      BuildsMembership(names, page, builds[|builds| - 1]);
    }
  }

  /** The pick follows listing order, not numeric order: after an alphabetical scan,
      `home.2` is taken over `home.10`, and `home.a.3` is never a build of `home`. */
  lemma LexicographicPick()
    ensures PickBuild(["home.1", "home.10", "home.2", "home.a.3"], "home") == "home.2"
    ensures !Keeps("home.a.3", "home")
  {
    var names := ["home.1", "home.10", "home.2", "home.a.3"];
    assert "home.2" == "home" + "." + "2";
    StripVersionOfVersioned("home", "2");
    assert "home.a.3" == "home.a" + "." + "3";
    StripVersionOfVersioned("home.a", "3");
    assert LastKept(names, "home", 2);
    PickBuildSpec(names, "home");
  }
}
