/**
 * Package and namespace names: composing a package name from `@package` and
 * `@subpackage`, and interning names case-insensitively so that every
 * spelling of one name is reported as the first spelling seen.
 */
module Naming {
  import opened Wrappers
  import opened Text
  import opened Reflected

  /** Pseudo name of every built-in symbol. */
  const PhpLabel: string := "PHP"
  /** Pseudo name of a symbol with no package (or in the global namespace). */
  const NoneLabel: string := "None"

  /** Every entry is filed under the lower-cased form of its spelling. */
  ghost predicate CaseKeyed(t: map<string, string>) {
    forall k :: k in t ==> Lower(t[k]) == k
  }

  /** The table after interning `name`: first writer wins. */
  function Register(t: map<string, string>, name: string): (r: map<string, string>)
    ensures r.Keys == t.Keys + {Lower(name)}
    ensures forall k :: k in t ==> r[k] == t[k]
    ensures Lower(name) !in t ==> r[Lower(name)] == name
    ensures CaseKeyed(t) ==> CaseKeyed(r)
  {
    if Lower(name) in t then t else t[Lower(name) := name]
  }

  /** The spelling interning `name` returns. */
  function Canonical(t: map<string, string>, name: string): (c: string)
    ensures c == Register(t, name)[Lower(name)]
    ensures CaseKeyed(t) ==> Lower(c) == Lower(name)
  {
    if Lower(name) in t then t[Lower(name)] else name
  }

  /** One of the two function-local `static` interning tables, as an explicit object. */
  class Interner {
    var table: map<string, string>

    ghost predicate Valid()
      reads this
    {
      CaseKeyed(table)
    }

    constructor ()
      ensures Valid() && table == map[]
    {
      table := map[];
    }

    /** `if (!isset($t[strtolower(n)])) $t[strtolower(n)] = n; return $t[strtolower(n)];` */
    method Intern(name: string) returns (canonical: string)
      requires Valid()
      modifies this
      ensures Valid()
      ensures table == Register(old(table), name)
      ensures canonical == Canonical(old(table), name)
      ensures Lower(canonical) == Lower(name)
      ensures Lower(name) in old(table) ==> canonical == old(table)[Lower(name)]
      ensures Lower(name) !in old(table) ==> canonical == name
    {
      var key := Lower(name);
      if key !in table {
        table := table[key := name];
      }
      canonical := table[key];
    }
  }

  /** The table after a run of interning requests. */
  function TableAfter(t: map<string, string>, names: seq<string>): map<string, string>
    decreases |names|
  {
    if names == [] then t else TableAfter(Register(t, names[0]), names[1..])
  }

  /** The spellings a run of interning requests returns, in order. */
  function Canonicals(t: map<string, string>, names: seq<string>): (r: seq<string>)
    ensures |r| == |names|
    decreases |names|
  {
    if names == [] then [] else [Canonical(t, names[0])] + Canonicals(Register(t, names[0]), names[1..])
  }

  /** Entries already in the table survive every later request unchanged. */
  lemma {:induction false} TableAfterKeeps(t: map<string, string>, names: seq<string>, k: string)
    requires k in t
    ensures k in TableAfter(t, names) && TableAfter(t, names)[k] == t[k]
    decreases |names|
  {
    if names != [] {
      TableAfterKeeps(Register(t, names[0]), names[1..], k);
    }
  }

  /** Each returned spelling is the final table's entry for that name's key. */
  lemma {:induction false} CanonicalIsFinalEntry(t: map<string, string>, names: seq<string>, i: nat)
    requires i < |names|
    ensures Lower(names[i]) in TableAfter(t, names)
    ensures Canonicals(t, names)[i] == TableAfter(t, names)[Lower(names[i])]
    decreases |names|
  {
    var t' := Register(t, names[0]);
    if i == 0 {
      TableAfterKeeps(t', names[1..], Lower(names[0]));
    } else {
      CanonicalIsFinalEntry(t', names[1..], i - 1);
    }
  }

  /**
   * Over a whole run, two names equal after lower-casing are answered with
   * the identical spelling, whatever the order of the requests.
   */
  lemma CaseVariantsShareSpelling(t: map<string, string>, names: seq<string>, i: nat, j: nat)
    requires i < |names| && j < |names| && Lower(names[i]) == Lower(names[j])
    ensures Canonicals(t, names)[i] == Canonicals(t, names)[j]
  {
    CanonicalIsFinalEntry(t, names, i);
    CanonicalIsFinalEntry(t, names, j);
  }

  /** The first spelling requested for a key is the one every request for that key gets. */
  lemma {:induction false} FirstSpellingWins(names: seq<string>, i: nat)
    requires i < |names|
    requires forall j :: 0 <= j < i ==> Lower(names[j]) != Lower(names[i])
    ensures Canonicals(map[], names)[i] == names[i]
  {
    FirstSpellingFrom(map[], names, i);
  }

  lemma {:induction false} FirstSpellingFrom(t: map<string, string>, names: seq<string>, i: nat)
    requires i < |names| && Lower(names[i]) !in t
    requires forall j :: 0 <= j < i ==> Lower(names[j]) != Lower(names[i])
    ensures Canonicals(t, names)[i] == names[i]
    decreases |names|
  {
    if i > 0 {
      FirstSpellingFrom(Register(t, names[0]), names[1..], i - 1);
    }
  }

  /**
   * The package name before interning (the string work of `getPackageName`):
   * the `@package` token, merged with the `@subpackage` token when one is
   * given, with `.`, `_` and `/` turned into backslashes.
   */
  function ComposePackageName(package: string, subpackage: Option<string>): (r: string)
    ensures forall i :: 0 <= i < |r| ==> !IsSeparator(r[i])
    ensures TranslateSeparators(CutAtWhitespace(package)) <= r
    ensures subpackage.None? ==> r == TranslateSeparators(CutAtWhitespace(package))
    ensures subpackage.Some? ==> var tail := TranslateSeparators(CutAtWhitespace(subpackage.value));
              |tail| <= |r| && r[|r| - |tail|..] == tail
    ensures subpackage.Some? && AtStart(CutAtWhitespace(subpackage.value), CutAtWhitespace(package)) ==>
              r == TranslateSeparators(CutAtWhitespace(subpackage.value))
    ensures subpackage.Some? && !AtStart(CutAtWhitespace(subpackage.value), CutAtWhitespace(package)) ==>
              r == TranslateSeparators(CutAtWhitespace(package)) + "\\" + TranslateSeparators(CutAtWhitespace(subpackage.value))
  {
    var p := CutAtWhitespace(package);
    match subpackage
    case None => TranslateSeparators(p)
    case Some(sub) =>
      var s := CutAtWhitespace(sub);
      if AtStart(s, p) then
        TranslatePrefix(p, s);
        TranslateSeparators(s)
      else
        TranslateConcat(p, "\\" + s);
        TranslateConcat("\\", s);
        TranslateSeparators(p + "\\" + s)
  }

  /** The composed package name of an annotation set, or None without a (non-empty) `@package`. */
  function PackageOf(m: Annotations): (r: Option<string>)
    ensures r.Some? <==> HasValues(m, "package")
    ensures r.Some? ==> TranslateSeparators(CutAtWhitespace(m["package"][0])) <= r.value
    ensures r.Some? && !HasValues(m, "subpackage") ==> r.value == TranslateSeparators(CutAtWhitespace(m["package"][0]))
    ensures r.Some? && HasValues(m, "subpackage") ==>
              var tail := TranslateSeparators(CutAtWhitespace(m["subpackage"][0]));
              |tail| <= |r.value| && r.value[|r.value| - |tail|..] == tail
  {
    if HasValues(m, "package") then
      Some(ComposePackageName(m["package"][0], if HasValues(m, "subpackage") then Some(m["subpackage"][0]) else None))
    else None
  }

  /** `@package Foo` with `@subpackage Foo\Bar` gives `Foo\Bar`: no repetition of the package. */
  lemma SubpackageRepeatingPackage()
    ensures ComposePackageName("Foo", Some("Foo\\Bar")) == "Foo\\Bar"
  {
    CutPlainToken("Foo");
    CutPlainToken("Foo\\Bar");
    assert "Foo" <= "Foo\\Bar";
    TranslatePlain("Foo\\Bar");
  }

  /** `@package Foo` with `@subpackage Bar` gives `Foo\Bar`: the two are joined. */
  lemma SubpackageJoined()
    ensures ComposePackageName("Foo", Some("Bar")) == "Foo\\Bar"
  {
    CutPlainToken("Foo");
    CutPlainToken("Bar");
    assert !("Foo" <= "Bar");
    TranslatePlain("Foo\\Bar");
  }

  /** Free text after the package token, and dots, do not reach the name: `@package A.b c` gives `A\b`. */
  lemma PackageTextAndDots()
    ensures ComposePackageName("A.b c", None) == "A\\b"
  {
    CutBeforeWhitespace("A.b c", 3);
    assert "A.b c"[..3] == "A.b";
  }
}
