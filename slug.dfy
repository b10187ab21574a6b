/**
 * The blog admin's `generateSlug`: lower-case the title, turn every maximal
 * run of characters outside [a-z0-9] into one '-', then drop a leading and a
 * trailing '-'. Lower-casing is modelled on ASCII letters only.
 */
module Slug {
  import opened Listing

  /** `toLowerCase` on one character, ASCII letters only. */
  function LowerChar(c: char): char {
    if 'A' <= c <= 'Z' then (c as int + 32) as char else c
  }

  /** `title.toLowerCase()`. */
  function Lower(s: string): string {
    seq(|s|, i requires 0 <= i < |s| => LowerChar(s[i]))
  }

  /** The class `[a-z0-9]`. */
  predicate IsAlnum(c: char) {
    'a' <= c <= 'z' || '0' <= c <= '9'
  }

  /** The characters a slug may contain. */
  predicate IsSlugChar(c: char) {
    IsAlnum(c) || c == '-'
  }

  /**
   * `.replace(/[^a-z0-9]+/g, "-")`, read left to right: `inRun` says the
   * character before `s` was already outside [a-z0-9], so its run has its '-'.
   */
  function Collapse(s: string, inRun: bool): string {
    if s == [] then []
    else if IsAlnum(s[0]) then [s[0]] + Collapse(s[1..], false)
    else if inRun then Collapse(s[1..], true)
    else ['-'] + Collapse(s[1..], true)
  }

  /** `.replace(/(^-|-$)/g, "")`: one leading and one trailing '-' removed. */
  function TrimDashes(s: string): string {
    var a := if |s| > 0 && s[0] == '-' then s[1..] else s;
    if |a| > 0 && a[|a| - 1] == '-' then a[..|a| - 1] else a
  }

  /**
   * `generateSlug(title)`: only [a-z0-9-], never a '-' at either end nor
   * "--"; the letters and digits of the lower-cased title survive, in their
   * order, and nothing else alphanumeric appears.
   */
  function GenerateSlug(title: string): (r: string)
    ensures SlugShaped(r)
    ensures Keep(r, IsAlnum) == Keep(Lower(title), IsAlnum)
  {
    CollapseShape(Lower(title), false);
    TrimShape(Collapse(Lower(title), false));
    CollapseKeepsAlnum(Lower(title), false);
    TrimKeepsAlnum(Collapse(Lower(title), false));
    TrimDashes(Collapse(Lower(title), false))
  }

  /** Only [a-z0-9-]. */
  predicate SlugChars(s: string) {
    forall i :: 0 <= i < |s| ==> IsSlugChar(s[i])
  }

  /** No "--" anywhere. */
  predicate NoDoubleDash(s: string) {
    forall i :: 0 <= i < |s| - 1 ==> !(s[i] == '-' && s[i + 1] == '-')
  }

  /** Neither the first nor the last character is '-'. */
  predicate NoEdgeDash(s: string) {
    |s| > 0 ==> s[0] != '-' && s[|s| - 1] != '-'
  }

  /** What a slug looks like: [a-z0-9-] only, no edge dash, no double dash. */
  predicate SlugShaped(s: string) {
    SlugChars(s) && NoEdgeDash(s) && NoDoubleDash(s)
  }

  lemma {:induction false} CollapseShape(s: string, inRun: bool)
    ensures SlugChars(Collapse(s, inRun))
    ensures NoDoubleDash(Collapse(s, inRun))
    ensures inRun && Collapse(s, inRun) != [] ==> Collapse(s, inRun)[0] != '-'
  {
    if s != [] {
      var b := !IsAlnum(s[0]);
      CollapseShape(s[1..], b);
      var rest := Collapse(s[1..], b);
      if IsAlnum(s[0]) || !inRun {
        var r := Collapse(s, inRun);
        assert r == [if IsAlnum(s[0]) then s[0] else '-'] + rest;
        assert forall i :: 1 <= i < |r| ==> r[i] == rest[i - 1];
      }
    }
  }

  lemma TrimShape(s: string)
    requires SlugChars(s) && NoDoubleDash(s)
    ensures SlugShaped(TrimDashes(s))
  {
    var a := if |s| > 0 && s[0] == '-' then s[1..] else s;
    if |s| > 1 && s[0] == '-' {
      assert a[0] == s[1];
    }
    var t := TrimDashes(s);
    if |a| > 0 && a[|a| - 1] == '-' {
      assert |a| > 1 ==> a[|a| - 2] != '-';
    }
  }

  lemma {:induction false} CollapseFixes(s: string, inRun: bool)
    requires SlugChars(s) && NoDoubleDash(s)
    requires inRun && s != [] ==> s[0] != '-'
    ensures Collapse(s, inRun) == s
  {
    if s != [] {
      assert s[1..] != [] && s[0] == '-' ==> s[1..][0] != '-';
      CollapseFixes(s[1..], !IsAlnum(s[0]));
      assert s == [s[0]] + s[1..];
    }
  }

  /** A string that already looks like a slug is its own slug. */
  lemma SlugShapedIsFixed(s: string)
    requires SlugShaped(s)
    ensures GenerateSlug(s) == s
  {
    assert Lower(s) == s;
    CollapseFixes(s, false);
  }

  /** Generating a slug from a slug changes nothing. */
  lemma GenerateSlugIdempotent(title: string)
    ensures GenerateSlug(GenerateSlug(title)) == GenerateSlug(title)
  {
    SlugShapedIsFixed(GenerateSlug(title));
  }

  lemma {:induction false} CollapseKeepsAlnum(s: string, inRun: bool)
    ensures Keep(Collapse(s, inRun), IsAlnum) == Keep(s, IsAlnum)
  {
    if s != [] {
      CollapseKeepsAlnum(s[1..], !IsAlnum(s[0]));
      var rest := Collapse(s[1..], !IsAlnum(s[0]));
      if IsAlnum(s[0]) || !inRun {
        var head := if IsAlnum(s[0]) then s[0] else '-';
        assert Collapse(s, inRun) == [head] + rest;
        assert ([head] + rest)[1..] == rest;
      }
    }
  }

  lemma TrimKeepsAlnum(s: string)
    ensures Keep(TrimDashes(s), IsAlnum) == Keep(s, IsAlnum)
  {
    var a := if |s| > 0 && s[0] == '-' then s[1..] else s;
    assert Keep(a, IsAlnum) == Keep(s, IsAlnum);
    if |a| > 0 && a[|a| - 1] == '-' {
      var init := a[..|a| - 1];
      assert a == init + [a[|a| - 1]];
      KeepAppend(init, [a[|a| - 1]], IsAlnum);
    }
  }

  /**
   * A second reading of the first regex, right to left: a character outside
   * [a-z0-9] yields a '-' exactly when it begins its maximal run (it is first,
   * or follows a letter or digit), and yields nothing otherwise.
   */
  function ReplaceRuns(s: string): string
    decreases |s|
  {
    if s == [] then []
    else
      var init, c := s[..|s| - 1], s[|s| - 1];
      ReplaceRuns(init) +
      (if IsAlnum(c) then [c] else if init != [] && !IsAlnum(init[|init| - 1]) then [] else ['-'])
  }

  /** Whether the scan is inside a run after reading `s` from state `inRun`. */
  function EndsInRun(s: string, inRun: bool): bool {
    if s == [] then inRun else !IsAlnum(s[|s| - 1])
  }

  lemma {:induction false} CollapseSnoc(s: string, c: char, inRun: bool)
    ensures Collapse(s + [c], inRun) ==
            Collapse(s, inRun) + (if IsAlnum(c) then [c] else if EndsInRun(s, inRun) then [] else ['-'])
  {
    if s == [] {
      assert s + [c] == [c];
    } else {
      assert (s + [c])[0] == s[0];
      assert (s + [c])[1..] == s[1..] + [c];
      CollapseSnoc(s[1..], c, !IsAlnum(s[0]));
    }
  }

  /** The left-to-right scan and the run-by-run reading agree on every string. */
  lemma {:induction false} CollapseIsReplaceRuns(s: string)
    ensures Collapse(s, false) == ReplaceRuns(s)
    decreases |s|
  {
    if s != [] {
      var init, c := s[..|s| - 1], s[|s| - 1];
      assert s == init + [c];
      CollapseIsReplaceRuns(init);
      CollapseSnoc(init, c, false);
    }
  }
}
