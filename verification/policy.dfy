/**
 * The yes/no questions about a symbol that need no cache: is it deprecated,
 * does it belong to the main project, and the rule set behind "should it
 * be documented" (the element caches the answer to the last one).
 */
module Policy {
  import opened Wrappers
  import opened Text
  import opened Reflected

  /** `@internal` whose first value is empty marks a symbol as hidden; a non-empty value is only a note. */
  predicate HiddenInternal(s: Symbol) {
    HasValues(s.annotations, "internal") && s.annotations["internal"][0] == ""
  }

  /** An `@ignore` annotation with any value, even an empty one. */
  predicate Ignored(s: Symbol) {
    HasValues(s.annotations, "ignore")
  }

  /**
   * The documentation policy, as the list of reasons to leave a symbol out.
   * It reads the symbol's own deprecation flag and its raw annotations.
   */
  function DocumentedPolicy(s: Symbol, c: Config): (b: bool)
    ensures b ==> s.tokenized || s.internal
    ensures b && s.internal ==> c.php
    ensures b && s.deprecated ==> c.deprecated
    ensures b && HiddenInternal(s) ==> c.internal
    ensures b ==> !Ignored(s)
    ensures (&& (s.tokenized || s.internal)
             && (s.internal ==> c.php)
             && (s.deprecated ==> c.deprecated)
             && (HiddenInternal(s) ==> c.internal)
             && !Ignored(s))
            ==> b
  {
    && (s.tokenized || s.internal)
    && !(s.internal && !c.php)
    && !(s.deprecated && !c.deprecated)
    && !(!c.internal && HiddenInternal(s))
    && !Ignored(s)
  }

  /** `isDeprecated`: own flag, else a member inherits its declaring class's answer. */
  function IsDeprecated(s: Symbol): (b: bool)
    ensures s.deprecated ==> b
    ensures b && !s.deprecated ==> IsMember(s.kind) && s.declaringClass.Some?
    decreases s
  {
    if s.deprecated then true
    else if IsMember(s.kind) && s.declaringClass.Some? then IsDeprecated(s.declaringClass.value)
    else false
  }

  /** The symbol, then its declaring class as long as the current one is a member that has one. */
  function DeclaringChain(s: Symbol): (chain: seq<Symbol>)
    ensures |chain| >= 1 && chain[0] == s
    decreases s
  {
    if IsMember(s.kind) && s.declaringClass.Some? then [s] + DeclaringChain(s.declaringClass.value) else [s]
  }

  /** A symbol is deprecated exactly when something on its declaring chain carries the flag. */
  lemma {:induction false} DeprecatedIffFlagOnChain(s: Symbol)
    ensures IsDeprecated(s) <==> exists x :: x in DeclaringChain(s) && x.deprecated
    decreases s
  {
    if IsMember(s.kind) && s.declaringClass.Some? {
      var c := s.declaringClass.value;
      DeprecatedIffFlagOnChain(c);
      assert DeclaringChain(s) == [s] + DeclaringChain(c);
      if IsDeprecated(s) && !s.deprecated {
        var x :| x in DeclaringChain(c) && x.deprecated;
        assert x in DeclaringChain(s);
      }
    }
  }

  /** A method of a deprecated class is deprecated although it carries no flag of its own. */
  lemma MemberOfDeprecatedClass(m: Symbol, c: Symbol)
    requires m.kind == Method && !m.deprecated && m.declaringClass == Some(c) && c.deprecated
    ensures IsDeprecated(m)
  {
  }

  /** Top-level symbols (classes, functions) are deprecated only by their own flag. */
  lemma TopLevelDeprecation(s: Symbol)
    requires !IsMember(s.kind)
    ensures IsDeprecated(s) == s.deprecated
  {
  }

  /**
   * The policy uses the flag, not the inherited answer: a method of a
   * deprecated class stays documented when deprecated symbols are excluded.
   */
  lemma PolicyIgnoresInheritedDeprecation(m: Symbol, c: Config)
    requires m.kind == Method && m.tokenized && !m.internal && !m.deprecated
    requires m.annotations == map[] && m.declaringClass.Some? && m.declaringClass.value.deprecated
    ensures IsDeprecated(m) && DocumentedPolicy(m, c)
  {
  }

  /** Excluding deprecated symbols excludes a flagged symbol; including them brings it back. */
  lemma DeprecatedToggle(s: Symbol, c: Config)
    requires s.tokenized && !s.internal && s.annotations == map[]
    ensures DocumentedPolicy(s, c.(deprecated := false)) == !s.deprecated
    ensures DocumentedPolicy(s, c.(deprecated := true))
  {
  }

  /** An empty `@ignore` hides a symbol; a non-empty `@internal` does not. */
  lemma IgnoreVersusInternal(s: Symbol, c: Config)
    requires s.tokenized && !s.internal && !s.deprecated
    ensures s.annotations == map["ignore" := [""]] ==> !DocumentedPolicy(s, c)
    ensures s.annotations == map["internal" := ["a note"]] ==> DocumentedPolicy(s, c)
  {
  }

  /** `isMain`: no main prefix configured, or the symbol name starts with it. */
  function IsMain(s: Symbol, c: Config): (b: bool)
    ensures b <==> c.main == "" || c.main <= s.name
  {
    c.main == "" || AtStart(s.name, c.main)
  }

  /** The prefix test is textual: main `Foo` also claims `FooBar\Baz`. */
  lemma IsMainIsTextualPrefix(s: Symbol, c: Config)
    requires c.main == "Foo" && s.name == "FooBar\\Baz"
    ensures IsMain(s, c)
  {
  }
}
