/**
 * The facts the external reflection provider exposes about one program
 * symbol, and the run configuration.  Both are read-only inputs of the
 * resolver; nothing here is computed.
 */
module Reflected {
  import opened Wrappers

  /** The element classes the resolver tells apart with `instanceof`. */
  datatype Kind = Class | Method | Property | Constant | Function

  /** Annotation name -> values, in order of occurrence. */
  type Annotations = map<string, seq<string>>

  /**
   * A reflected symbol.  `annotations` is the raw map the annotation parser
   * produced, including the two description entries; `fileAnnotations` are
   * those of the declaring file.  `declaringClassName` is the provider's
   * answer to "declared inside which class?", `declaringClass` the resolved
   * class element that deprecation is inherited from.
   */
  datatype Symbol = Symbol(
    kind: Kind,
    name: string,
    namespace: string,
    tokenized: bool,
    internal: bool,
    deprecated: bool,
    annotations: Annotations,
    fileAnnotations: Annotations,
    declaringClassName: Option<string>,
    declaringClass: Option<Symbol>)

  /**
   * The run configuration: document built-in symbols (`php`), deprecated
   * ones, `@internal` ones, and the name prefix of the main project.
   */
  datatype Config = Config(php: bool, deprecated: bool, internal: bool, main: string)

  /**
   * The reserved keys under which the annotation parser files the short and
   * long description (the leading space keeps them apart from any `@name`).
   * The parser stores a description as one string; the model stores it as
   * the one-element list holding that string.
   */
  const ShortDescriptionKey: string := " short_description"
  const LongDescriptionKey: string := " long_description"

  /** Methods, properties and class constants: the kinds that have a declaring class. */
  predicate IsMember(k: Kind) {
    k == Method || k == Property || k == Constant
  }

  /** PHP truthiness of `$annotations[name]`: present and a non-empty list. */
  predicate HasValues(m: Annotations, name: string) {
    name in m && m[name] != []
  }

  /** A description entry, with PHP's `empty()` read as "absent or empty text". */
  function DescriptionText(m: Annotations, key: string): string {
    if HasValues(m, key) then m[key][0] else ""
  }
}
