# ApiGen element metadata resolver, in Dafny

This project models the metadata resolver of the ApiGen documentation generator
(`ApiGen\Reflection\ReflectionElement`). The resolver wraps one reflected PHP symbol and
answers the questions the page renderer asks about it:

- should the symbol be documented;
- is it deprecated;
- does it belong to the main project;
- what are its package and namespace, real and "pseudo";
- what are its short and long descriptions;
- what is its resolved annotation set.

It also lets collaborators append annotations to that set afterwards.

Layout, leaves first:

- `wrappers.dfy` (`Wrappers`): `Option`, standing for PHP `null`.
- `text.dfy` (`Text`): PCRE's `\s` class, `strtolower`, `strpos` (with PHP 5's rule that an
  empty needle gives `false`), cutting at the first whitespace run, the text after it, and the
  `strtr` that turns `.`, `_` and `/` into backslashes.
- `reflected.dfy` (`Reflected`): the immutable facts the reflection provider supplies (`Symbol`)
  and the run configuration (`Config`).
- `annotation_store.dfy` (`AnnotationStore`): the resolved annotation set (`Resolve`) and the
  loop that merges file-level annotations (`MergeFileLevel`).
- `naming.dfy` (`Naming`): package-name composition, and the case-insensitive interning tables
  as `Interner` objects.
- `policy.dfy` (`Policy`): the documentation policy, deprecation through the declaring class,
  and `isMain`.
- `descriptions.dfy` (`Descriptions`): the short and long descriptions.
- `element.dfy` (`Elements`): the `Element` class. It holds the two lazily filled caches (the
  `isDocumented` verdict and the annotation set). Its methods update those caches and the
  interners in place.

Modelling choices:

- Each function-local `static` table of the source becomes an `Interner` object, passed in
  explicitly. The static configuration becomes a `Config` parameter.
- `Element` has a ghost field `decidedUnder`. It records the configuration under which the
  cached verdict was computed.
- The annotation parser files the two descriptions as plain strings under the reserved keys
  `" short_description"` and `" long_description"`. The model stores each one as the
  one-element list holding that string, under the same key.
- The file-level inheritance test (line 253) uses `instanceof` on the token-parsed reflection
  classes, so only tokenized symbols inherit. Built-in symbols come from another provider
  class and have no declaring file. The model therefore includes `tokenized` in
  `InheritsFileLevel`.
- `strpos` follows PHP 5, the version this source targets: an empty needle gives `false`. So
  when the `@package` token is empty, a subpackage is joined as `\sub` and does not replace it.
- Line 253 asks for the declaring class *name*. Line 96 asks for the resolved declaring class
  *element*. The fact record keeps both (`declaringClassName`, `declaringClass`).

Points where the code reads differently from what one might expect, followed by the model:

- `isDocumented` tests the symbol's own deprecation flag and its raw annotations (lines 71-75).
  It does not use the inherited `isDeprecated()` or the merged annotation set
  (`PolicyIgnoresInheritedDeprecation`).
- `getShortDescription` and `getLongDescription` read the raw annotations (lines 204, 210,
  225), not the resolved set.
- `getPackageName` reads the resolved set, including values added by `addAnnotation`
  (lines 123, 125).

## Model

| member | source | states |
|---|---|---|
| `Text.Lower` | ApiGen/Reflection/ReflectionElement.php:135 | `strtolower` keeps the length, leaves no upper-case letter, and changes only A-Z (each by +32) |
| `Text.AtStart` | ApiGen/Reflection/ReflectionElement.php:127 | `0 === strpos(h, n)` holds iff `n` is a non-empty prefix of `h` |
| `Text.PositionFrom` | ApiGen/Reflection/ReflectionElement.php:127 | `strpos` returns the first occurrence of the needle, or false when there is none or the needle is empty |
| `Text.CutAtWhitespace` | ApiGen/Reflection/ReflectionElement.php:124 | the result is a prefix of the text with no whitespace, and is followed in the text by whitespace unless it is the whole text |
| `Text.AfterWhitespace` | ApiGen/Reflection/ReflectionElement.php:211 | the text is split into token, a non-empty whitespace run, and a result that does not start with whitespace; the result is "" when the text has no whitespace |
| `Text.TranslateSeparators` | ApiGen/Reflection/ReflectionElement.php:133 | no `.`, `_` or `/` remains; those become backslashes in place and every other character is kept |
| `AnnotationStore.InheritsFileLevel` | ApiGen/Reflection/ReflectionElement.php:253 | only tokenized symbols inherit; classes and functions always do, methods and properties never, constants exactly when declared outside a class |
| `AnnotationStore.MergeFileLevel` | ApiGen/Reflection/ReflectionElement.php:254-258 | the loop over the file's annotations yields exactly the reference merge `FillFromFile` over all file keys |
| `AnnotationStore.Resolve` | ApiGen/Reflection/ReflectionElement.php:247-259 | no description key; no own key lost; every key except a missing or empty file-level key that an inheriting symbol's file supplies keeps its own value (an own `[]` the file does not supply stays `[]`); for inheriting symbols, missing or empty file-level keys take the file's value; non-inheriting symbols get exactly the raw map without descriptions |
| `AnnotationStore.Appended` | ApiGen/Reflection/ReflectionElement.php:291 | the value is added at the end of the key's list (a new list if the key is missing); earlier values and all other keys are unchanged |
| `Naming.Register` | ApiGen/Reflection/ReflectionElement.php:136-138 | the table gains the lower-cased key only; existing entries never change; a new key stores the spelling given; the lower-case keying invariant is kept |
| `Naming.Canonical` | ApiGen/Reflection/ReflectionElement.php:140 | the returned spelling is the table's entry after registering and lower-cases to the same key as the input |
| `Naming.Interner.Intern` | ApiGen/Reflection/ReflectionElement.php:135-140 | the table becomes `Register(old, name)`; the result is the stored spelling, lower-cases like the input, and is the earlier spelling whenever the key was already present |
| `Naming.TableAfterKeeps` | ApiGen/Reflection/ReflectionElement.php:136-138 | an entry present in a table survives any later run of interning requests unchanged |
| `Naming.CaseVariantsShareSpelling` | ApiGen/Reflection/ReflectionElement.php:135-140 | in any run of requests, two names equal after lower-casing get the identical spelling |
| `Naming.FirstSpellingWins` | ApiGen/Reflection/ReflectionElement.php:136-138 | the first request for a key is answered with its own spelling |
| `Naming.ComposePackageName` | ApiGen/Reflection/ReflectionElement.php:124-133 | the name has no `.`, `_` or `/`; it starts with the translated package token; it ends with the translated subpackage token when one is given; it is that subpackage alone when the subpackage starts with the package, otherwise package + `\` + subpackage; without a subpackage it is the translated package token |
| `Naming.PackageOf` | ApiGen/Reflection/ReflectionElement.php:123-133 | a name exists iff `@package` has values; it starts with the translated first `@package` token, is exactly that without `@subpackage` values, and otherwise ends with the translated first `@subpackage` token |
| `Naming.SubpackageRepeatingPackage` | ApiGen/Reflection/ReflectionElement.php:127-128 | `@package Foo` + `@subpackage Foo\Bar` gives `Foo\Bar` |
| `Naming.SubpackageJoined` | ApiGen/Reflection/ReflectionElement.php:129-130 | `@package Foo` + `@subpackage Bar` gives `Foo\Bar` |
| `Naming.PackageTextAndDots` | ApiGen/Reflection/ReflectionElement.php:124-133 | text after the package token is dropped and dots become backslashes |
| `Policy.DocumentedPolicy` | ApiGen/Reflection/ReflectionElement.php:66-77 | a symbol passes iff it is tokenized or built-in, built-ins only with the PHP switch, flagged ones only with the deprecated switch, empty `@internal` only with the internal switch, and it has no `@ignore` |
| `Policy.IsDeprecated` | ApiGen/Reflection/ReflectionElement.php:89-102 | the own flag makes a symbol deprecated; without it, only a member with a declaring class can be deprecated |
| `Policy.DeprecatedIffFlagOnChain` | ApiGen/Reflection/ReflectionElement.php:89-102 | `isDeprecated` holds iff the symbol or a declaring class reached through members carries the deprecation flag |
| `Policy.MemberOfDeprecatedClass` | ApiGen/Reflection/ReflectionElement.php:95-98 | a method without its own flag is deprecated when its declaring class is |
| `Policy.TopLevelDeprecation` | ApiGen/Reflection/ReflectionElement.php:91-101 | for classes and functions, `isDeprecated` is exactly the own flag |
| `Policy.PolicyIgnoresInheritedDeprecation` | ApiGen/Reflection/ReflectionElement.php:71 | a method of a deprecated class, not flagged itself, is deprecated yet still passes the documentation policy |
| `Policy.DeprecatedToggle` | ApiGen/Reflection/ReflectionElement.php:71 | with deprecated symbols excluded, a flagged symbol is left out; with them included it is documented again |
| `Policy.IgnoreVersusInternal` | ApiGen/Reflection/ReflectionElement.php:73-76 | an empty `@ignore` excludes a symbol; a non-empty `@internal` does not |
| `Policy.IsMain` | ApiGen/Reflection/ReflectionElement.php:53-56 | true iff no main prefix is configured or the symbol name starts with it |
| `Policy.IsMainIsTextualPrefix` | ApiGen/Reflection/ReflectionElement.php:55 | main prefix `Foo` also claims `FooBar\Baz` (plain textual prefix) |
| `Descriptions.ShortDescription` | ApiGen/Reflection/ReflectionElement.php:202-215 | a non-empty raw short description is returned unchanged; otherwise properties and constants get the text after the type in the first `@var` ("" if it has no whitespace), and other kinds get "" |
| `Descriptions.LongDescription` | ApiGen/Reflection/ReflectionElement.php:222-232 | starts with the short description; equals it when there is no long description, otherwise continues with a blank line and the long text |
| `Descriptions.VarDoublesAsDescription` | ApiGen/Reflection/ReflectionElement.php:209-212 | a property with `@var int  Count` and no description is described as `Count` |
| `Elements.Element.IsDocumented` | ApiGen/Reflection/ReflectionElement.php:63-82 | the first call caches and returns the policy: tokenized or built-in, and not excluded as built-in, flagged deprecated, empty `@internal` or `@ignore`; later calls return the cache whatever the configuration |
| `Elements.Element.GetAnnotations` | ApiGen/Reflection/ReflectionElement.php:244-265 | the first call stores `Resolve(symbol)`; later calls return the cache unchanged |
| `Elements.Element.GetAnnotation` | ApiGen/Reflection/ReflectionElement.php:273-277 | populates the cache if needed and returns the cached list for the name, or None |
| `Elements.Element.AddAnnotation` | ApiGen/Reflection/ReflectionElement.php:286-294 | the cache (populated first if needed) becomes `Appended(cache, name, value)`, and stays an extension of the resolved set |
| `Elements.Element.GetPackageName` | ApiGen/Reflection/ReflectionElement.php:119-144 | "" with the interner unchanged when the cached set has no `@package` values; otherwise the composed name is registered in the package interner and its canonical spelling is returned, lower-casing like the composed name |
| `Elements.Element.InPackage` | ApiGen/Reflection/ReflectionElement.php:109-112 | true iff the composed package name exists and is not empty (so an empty `@package` token still counts when a `@subpackage` is joined to it) |
| `Elements.Element.GetPseudoPackageName` | ApiGen/Reflection/ReflectionElement.php:153-160 | never empty; "PHP" for built-ins with neither cache nor table touched; otherwise the package name (registered in the package interner when there is one, table unchanged otherwise), or "None" when it is empty |
| `Elements.Element.GetNamespaceName` | ApiGen/Reflection/ReflectionElement.php:167-183 | an empty namespace is returned as is with the table unchanged; otherwise it is interned in the namespace interner and its canonical spelling returned |
| `Elements.Element.GetPseudoNamespaceName` | ApiGen/Reflection/ReflectionElement.php:192-195 | never empty; "PHP" for built-ins with the table unchanged; "None" with the table unchanged for an empty namespace; otherwise the namespace is registered in the namespace interner and its canonical spelling returned |

## Left out

- `getExtension` (lines 42-46) only wraps a foreign extension object. It has no logic of its own.
- The reflection provider and annotation parser, and the `ReflectionBase` parent class, are
  not modelled as behaviour. Their answers are the fields of `Symbol`.
- `ApiGen/Reflection/ReflectionClass.php` is not part of this model. The declaring class's
  `isDeprecated` is taken to be the rule of lines 89-102 applied to the class's facts.
- PHP truthiness of `"0"` is not modelled. `empty("0")`, `!"0"` and `"0" ?: …` treat the string
  `"0"` as empty (lines 55, 73, 159, 173, 194, 205, 227). The model treats only "" (and missing
  or empty lists) as empty.
- Order of annotation keys. PHP arrays keep insertion order; Dafny maps do not. The order of
  values inside each list is modelled.
- `strtolower` is ASCII-only here; locale-dependent case mapping is not modelled.
- PCRE's `\s` is taken as space and characters 9-13, with no Unicode whitespace.
- `ShortDescription` returns "" where a class, method or function without a short description
  gets the parser's `null` back (line 214 returns what line 204 read). `LongDescription` does
  the same when there is no long description either. The model has no `null` string; PHP's
  string contexts treat the two alike.
- `addAnnotation` returns the element for chaining. The model's method returns nothing.
- Process-wide static state (configuration, generator, the two tables) becomes parameters and
  `Interner` objects. There is no concurrency to model.
