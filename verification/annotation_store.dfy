/**
 * The annotation set an element resolves once: the raw annotations without
 * the two description entries, with some file-level annotations inherited
 * by top-level symbols.
 */
module AnnotationStore {
  import opened Wrappers
  import opened Reflected

  /** The annotations a top-level symbol inherits from its file. */
  const FileLevelNames: set<string> := {"package", "subpackage", "author", "license", "copyright"}

  const DescriptionKeys: set<string> := {ShortDescriptionKey, LongDescriptionKey}

  /**
   * Classes, functions and constants declared outside a class inherit
   * file-level annotations.  The test is made on the token-parsed
   * reflection classes, so built-in symbols, which have no declaring file,
   * never inherit.
   */
  function InheritsFileLevel(s: Symbol): (b: bool)
    ensures b ==> s.tokenized && s.kind != Method && s.kind != Property
    ensures s.tokenized && (s.kind == Class || s.kind == Function) ==> b
    ensures s.kind == Constant ==> (b <==> s.tokenized && s.declaringClassName.None?)
  {
    s.tokenized && (s.kind == Class || s.kind == Function || (s.kind == Constant && s.declaringClassName.None?))
  }

  /** PHP `empty($annotations[name])`. */
  predicate Missing(m: Annotations, name: string) {
    name !in m || m[name] == []
  }

  /** Reference definition of the merge: `own`, with file values filled in for the file-level keys in `done`. */
  function FillFromFile(own: Annotations, file: Annotations, done: set<string>): Annotations {
    map k | k in own.Keys + (done * file.Keys * FileLevelNames) ::
      if k in done && k in file && k in FileLevelNames && Missing(own, k) then file[k] else own[k]
  }

  /** One step of the merge: handling `name` after the keys in `done`. */
  lemma FillStep(own: Annotations, file: Annotations, done: set<string>, name: string)
    requires name in file && name !in done
    ensures var before := FillFromFile(own, file, done);
            FillFromFile(own, file, done + {name}) ==
              if name in FileLevelNames && Missing(before, name) then before[name := file[name]] else before
  {
    var before := FillFromFile(own, file, done);
    var after := FillFromFile(own, file, done + {name});
    assert Missing(before, name) == Missing(own, name);
    var expected := if name in FileLevelNames && Missing(before, name) then before[name := file[name]] else before;
    assert after.Keys == expected.Keys;
    forall k | k in after ensures after[k] == expected[k] {
    }
  }

  /** Before the loop nothing is filled in. */
  lemma FillNothing(own: Annotations, file: Annotations)
    ensures FillFromFile(own, file, {}) == own
  {
    assert FillFromFile(own, file, {}).Keys == own.Keys;
  }

  /** The `foreach` over the file's annotations that fills missing file-level keys. */
  method MergeFileLevel(own: Annotations, file: Annotations) returns (merged: Annotations)
    ensures merged == FillFromFile(own, file, file.Keys)
  {
    merged := own;
    var pending := file.Keys;
    ghost var done: set<string> := {};
    FillNothing(own, file);
    while pending != {}
      invariant done + pending == file.Keys && done !! pending
      invariant merged == FillFromFile(own, file, done)
      decreases pending
    {
      var name :| name in pending;
      FillStep(own, file, done, name);
      if name in FileLevelNames && Missing(merged, name) {
        merged := merged[name := file[name]];
      }
      pending := pending - {name};
      done := done + {name};
    }
  }

  /** The resolved annotation set of a symbol (what `getAnnotations` caches). */
  function Resolve(s: Symbol): (m: Annotations)
    ensures ShortDescriptionKey !in m && LongDescriptionKey !in m
    ensures forall k :: k in m ==> k in s.annotations || (InheritsFileLevel(s) && k in FileLevelNames && k in s.fileAnnotations)
    ensures forall k :: k in s.annotations && k !in DescriptionKeys ==> k in m
    ensures forall k :: k in m && !Missing(s.annotations, k) ==> m[k] == s.annotations[k]
    ensures forall k :: k in m && k !in FileLevelNames ==> m[k] == s.annotations[k]
    ensures forall k :: k in m && !(InheritsFileLevel(s) && k in FileLevelNames && k in s.fileAnnotations && Missing(s.annotations, k)) ==>
              m[k] == s.annotations[k]
    ensures forall k :: InheritsFileLevel(s) && k in FileLevelNames && k in s.fileAnnotations && Missing(s.annotations, k) ==>
              k in m && m[k] == s.fileAnnotations[k]
    ensures !InheritsFileLevel(s) ==> m == s.annotations - DescriptionKeys
  {
    var own := s.annotations - DescriptionKeys;
    if InheritsFileLevel(s) then FillFromFile(own, s.fileAnnotations, s.fileAnnotations.Keys) else own
  }

  /** `m` is `base` with values appended: no key lost, every list extended at its end. */
  ghost predicate Extends(m: Annotations, base: Annotations) {
    forall k :: k in base ==> k in m && base[k] <= m[k]
  }

  /** `$annotations[name][] = value`: a missing list starts empty. */
  function Appended(m: Annotations, name: string, value: string): (r: Annotations)
    ensures name in r && |r[name]| >= 1 && r[name][|r[name]| - 1] == value
    ensures name in m ==> |r[name]| == |m[name]| + 1 && m[name] <= r[name]
    ensures name !in m ==> r[name] == [value]
    ensures r.Keys == m.Keys + {name}
    ensures forall k :: k in m && k != name ==> r[k] == m[k]
    ensures Extends(r, m)
  {
    m[name := (if name in m then m[name] else []) + [value]]
  }
}
