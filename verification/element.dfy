/**
 * The documentation element: one per reflected symbol, holding the two
 * caches the resolver fills lazily (the "documented" verdict and the
 * resolved annotation set) and answering the queries that touch them or
 * the interning tables.
 */
module Elements {
  import opened Wrappers
  import opened Text
  import opened Reflected
  import opened AnnotationStore
  import opened Naming
  import opened Policy

  class Element {
    const symbol: Symbol
    /** Cache of `isDocumented`; None until the first call. */
    var documented: Option<bool>
    /** The configuration the cached verdict was computed under. */
    ghost var decidedUnder: Config
    /** Cache of `getAnnotations`, extended in place by `addAnnotation`; None until first needed. */
    var annotations: Option<Annotations>

    /** The cached verdict is the policy's; the cached set is the resolved set with values appended. */
    ghost predicate Valid()
      reads this
    {
      && (documented.Some? ==> documented.value == DocumentedPolicy(symbol, decidedUnder))
      && (annotations.Some? ==> Extends(annotations.value, Resolve(symbol)))
    }

    /** The annotation set any query sees: the cache, or what populating it would store. */
    ghost function Loaded(): Annotations
      reads this
    {
      if annotations.Some? then annotations.value else Resolve(symbol)
    }

    constructor (symbol: Symbol)
      ensures Valid()
      ensures this.symbol == symbol && documented == None && annotations == None
    {
      this.symbol := symbol;
      documented := None;
      annotations := None;
      decidedUnder := Config(false, false, false, "");
    }

    /** `isDocumented`: computed once, by the ordered exclusion rules, then returned from the cache. */
    method IsDocumented(config: Config) returns (b: bool)
      requires Valid()
      modifies this`documented, this`decidedUnder
      ensures Valid()
      ensures documented == Some(b)
      ensures old(documented).Some? ==> b == old(documented.value) && decidedUnder == old(decidedUnder)
      ensures old(documented).None? ==> b == DocumentedPolicy(symbol, config) && decidedUnder == config
      ensures b ==> symbol.tokenized || symbol.internal
    {
      if documented.None? {
        var d := symbol.tokenized || symbol.internal;
        if d {
          if !config.php && symbol.internal {
            d := false;
          } else if !config.deprecated && symbol.deprecated {
            d := false;
          } else if !config.internal && HasValues(symbol.annotations, "internal") && symbol.annotations["internal"][0] == "" {
            d := false;
          } else if HasValues(symbol.annotations, "ignore") {
            d := false;
          }
        }
        documented := Some(d);
        decidedUnder := config;
      }
      b := documented.value;
    }

    /** `getAnnotations`: resolve and cache on the first call, return the cache afterwards. */
    method GetAnnotations() returns (m: Annotations)
      requires Valid()
      modifies this`annotations
      ensures Valid()
      ensures annotations == Some(m)
      ensures m == old(Loaded())
      ensures old(annotations).Some? ==> m == old(annotations.value)
      ensures old(annotations).None? ==> m == Resolve(symbol)
    {
      if annotations.None? {
        var resolved := symbol.annotations - DescriptionKeys;
        if InheritsFileLevel(symbol) {
          resolved := MergeFileLevel(resolved, symbol.fileAnnotations);
        }
        annotations := Some(resolved);
      }
      m := annotations.value;
    }

    /** `getAnnotation`: the cached list for `name`, or None (PHP `null`). */
    method GetAnnotation(name: string) returns (values: Option<seq<string>>)
      requires Valid()
      modifies this`annotations
      ensures Valid()
      ensures annotations == Some(old(Loaded()))
      ensures name in old(Loaded()) ==> values == Some(old(Loaded())[name])
      ensures name !in old(Loaded()) ==> values == None
    {
      var m := GetAnnotations();
      values := if name in m then Some(m[name]) else None;
    }

    /** `addAnnotation`: append `value` to `name`'s list in the cache, populating it first. */
    method AddAnnotation(name: string, value: string)
      requires Valid()
      modifies this`annotations
      ensures Valid()
      ensures annotations == Some(Appended(old(Loaded()), name, value))
    {
      var m := GetAnnotations();
      annotations := Some(Appended(m, name, value));
    }

    /**
     * `getPackageName`: the composed package name of the (cached, possibly
     * extended) annotation set, interned in `packages`; "" without `@package`.
     */
    method GetPackageName(packages: Interner) returns (name: string)
      requires Valid() && packages.Valid()
      modifies this`annotations, packages
      ensures Valid() && packages.Valid()
      ensures annotations == Some(old(Loaded()))
      ensures PackageOf(old(Loaded())).None? ==> name == "" && packages.table == old(packages.table)
      ensures PackageOf(old(Loaded())).Some? ==>
                && packages.table == Register(old(packages.table), PackageOf(old(Loaded())).value)
                && name == Canonical(old(packages.table), PackageOf(old(Loaded())).value)
                && Lower(name) == Lower(PackageOf(old(Loaded())).value)
    {
      var package := GetAnnotation("package");
      if package.Some? && package.value != [] {
        var packageName := CutAtWhitespace(package.value[0]);
        var subpackage := GetAnnotation("subpackage");
        if subpackage.Some? && subpackage.value != [] {
          var subpackageName := CutAtWhitespace(subpackage.value[0]);
          if AtStart(subpackageName, packageName) {
            packageName := subpackageName;
          } else {
            packageName := packageName + "\\" + subpackageName;
          }
        }
        packageName := TranslateSeparators(packageName);
        name := packages.Intern(packageName);
      } else {
        name := "";
      }
    }

    /** `inPackage`: the package name is not empty. */
    method InPackage(packages: Interner) returns (b: bool)
      requires Valid() && packages.Valid()
      modifies this`annotations, packages
      ensures Valid() && packages.Valid()
      ensures annotations == Some(old(Loaded()))
      ensures b ==> HasValues(old(Loaded()), "package")
      ensures HasValues(old(Loaded()), "package") && CutAtWhitespace(old(Loaded())["package"][0]) != "" ==> b
      ensures b <==> PackageOf(old(Loaded())).Some? && PackageOf(old(Loaded())).value != ""
    {
      var name := GetPackageName(packages);
      b := name != "";
    }

    /** `getPseudoPackageName`: "PHP" for built-ins (nothing is looked up), else the package name or "None". */
    method GetPseudoPackageName(packages: Interner) returns (name: string)
      requires Valid() && packages.Valid()
      modifies this`annotations, packages
      ensures Valid() && packages.Valid()
      ensures name != ""
      ensures symbol.internal ==> name == PhpLabel && annotations == old(annotations) && packages.table == old(packages.table)
      ensures !symbol.internal ==> annotations == Some(old(Loaded()))
      ensures !symbol.internal && PackageOf(old(Loaded())).None? ==> packages.table == old(packages.table)
      ensures !symbol.internal && PackageOf(old(Loaded())).Some? ==>
                packages.table == Register(old(packages.table), PackageOf(old(Loaded())).value)
      ensures !symbol.internal && (PackageOf(old(Loaded())).None? || PackageOf(old(Loaded())).value == "") ==> name == NoneLabel
      ensures !symbol.internal && PackageOf(old(Loaded())).Some? && PackageOf(old(Loaded())).value != "" ==>
                name == Canonical(old(packages.table), PackageOf(old(Loaded())).value)
    {
      if symbol.internal {
        return PhpLabel;
      }
      name := GetPackageName(packages);
      if name == "" {
        name := NoneLabel;
      }
    }

    /** `getNamespaceName`: the symbol's namespace interned in `namespaces`; "" stays "" and is not interned. */
    method GetNamespaceName(namespaces: Interner) returns (name: string)
      requires namespaces.Valid()
      modifies namespaces
      ensures namespaces.Valid()
      ensures symbol.namespace == "" ==> name == "" && namespaces.table == old(namespaces.table)
      ensures symbol.namespace != "" ==>
                && namespaces.table == Register(old(namespaces.table), symbol.namespace)
                && name == Canonical(old(namespaces.table), symbol.namespace)
                && Lower(name) == Lower(symbol.namespace)
    {
      var namespaceName := symbol.namespace;
      if namespaceName == "" {
        return namespaceName;
      }
      name := namespaces.Intern(namespaceName);
    }

    /** `getPseudoNamespaceName`: "PHP" for built-ins, else the namespace name or "None". */
    method GetPseudoNamespaceName(namespaces: Interner) returns (name: string)
      requires namespaces.Valid()
      modifies namespaces
      ensures namespaces.Valid()
      ensures name != ""
      ensures symbol.internal ==> name == PhpLabel && namespaces.table == old(namespaces.table)
      ensures !symbol.internal && symbol.namespace == "" ==> name == NoneLabel && namespaces.table == old(namespaces.table)
      ensures !symbol.internal && symbol.namespace != "" ==> namespaces.table == Register(old(namespaces.table), symbol.namespace)
      ensures !symbol.internal && symbol.namespace != "" ==> name == Canonical(old(namespaces.table), symbol.namespace)
    {
      if symbol.internal {
        return PhpLabel;
      }
      name := GetNamespaceName(namespaces);
      if name == "" {
        name := NoneLabel;
      }
    }
  }

  /**
   * Two fresh elements of one run whose package names differ only in case
   * (`@package Foo` and `@package FOO`, say) both report the spelling seen
   * first.
   */
  method CaseVariantPackagesScenario(s1: Symbol, s2: Symbol)
    requires PackageOf(Resolve(s1)).Some? && PackageOf(Resolve(s2)).Some?
    requires Lower(PackageOf(Resolve(s1)).value) == Lower(PackageOf(Resolve(s2)).value)
  {
    var packages := new Interner();
    var first := new Element(s1);
    var second := new Element(s2);
    var p1 := first.GetPackageName(packages);
    var p2 := second.GetPackageName(packages);
    assert p1 == p2 == PackageOf(Resolve(s1)).value;
  }

  /**
   * An appended annotation is visible to the next `getAnnotations`, and a
   * second `isDocumented` returns the cached verdict even under another
   * configuration.
   */
  method CacheScenario(s: Symbol, config: Config)
  {
    var e := new Element(s);
    e.AddAnnotation("uses", "B");
    var m := e.GetAnnotations();
    assert m["uses"][|m["uses"]| - 1] == "B";

    var d1 := e.IsDocumented(config);
    var d2 := e.IsDocumented(config.(deprecated := !config.deprecated));
    assert d1 == d2 == DocumentedPolicy(s, config);
  }
}
