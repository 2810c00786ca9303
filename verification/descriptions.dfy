/** Short and long description of a symbol, read from its raw annotations. */
module Descriptions {
  import opened Text
  import opened Reflected

  /** The first `@var` value (`Type description`), or "" when there is none. */
  function VarText(s: Symbol): string {
    if HasValues(s.annotations, "var") then s.annotations["var"][0] else ""
  }

  /**
   * `getShortDescription`: the raw short description; a property or constant
   * without one uses the text after the type in its first `@var`.
   */
  function ShortDescription(s: Symbol): (d: string)
    ensures DescriptionText(s.annotations, ShortDescriptionKey) != "" ==>
              d == DescriptionText(s.annotations, ShortDescriptionKey)
    ensures DescriptionText(s.annotations, ShortDescriptionKey) == "" && (s.kind == Property || s.kind == Constant) ==>
              d == AfterWhitespace(VarText(s))
    ensures (&& DescriptionText(s.annotations, ShortDescriptionKey) == ""
             && (s.kind == Property || s.kind == Constant)
             && (forall k :: 0 <= k < |VarText(s)| ==> !IsWhitespace(VarText(s)[k])))
            ==> d == ""
    ensures DescriptionText(s.annotations, ShortDescriptionKey) == "" && !(s.kind == Property || s.kind == Constant) ==> d == ""
  {
    var short := DescriptionText(s.annotations, ShortDescriptionKey);
    if short != "" then short
    else if s.kind == Property || s.kind == Constant then AfterWhitespace(VarText(s))
    else short
  }

  /** `getLongDescription`: the short description, then a blank line and the long one when there is one. */
  function LongDescription(s: Symbol): (d: string)
    ensures ShortDescription(s) <= d
    ensures DescriptionText(s.annotations, LongDescriptionKey) == "" ==> d == ShortDescription(s)
    ensures DescriptionText(s.annotations, LongDescriptionKey) != "" ==>
              d[|ShortDescription(s)|..] == "\n\n" + DescriptionText(s.annotations, LongDescriptionKey)
  {
    var short := ShortDescription(s);
    var long := DescriptionText(s.annotations, LongDescriptionKey);
    if long != "" then short + "\n\n" + long else short
  }

  /** `@var int  Count` on a property gives the description `Count`. */
  lemma VarDoublesAsDescription(s: Symbol)
    requires s.kind == Property && s.annotations == map["var" := ["int  Count"]]
    ensures ShortDescription(s) == "Count"
  {
    var v := "int  Count";
    assert VarText(s) == v;
    assert IsWhitespace(v[3]) && IsWhitespace(v[4]) && !IsWhitespace(v[5]);
    assert FirstWhitespace(v[3..]) == 0;
    assert FirstWhitespace(v) == 3;
    assert WhitespaceRunEnd(v, 3) == 5;
    assert AfterWhitespace(v) == "Count";
  }
}
