/**
 * The flexible spellings of an enum constant's name, as the `getNames` helper
 * of the enum test cases generates them: every combination of a letter case
 * (as-is, lower, upper) with a separator form (as-is, underscores turned into
 * dashes, dashes turned into underscores, separators removed).
 *
 * Case mapping is restricted to the ASCII letters.
 */
module NameVariants {

  // ---------------------------------------------------------------------------
  // Characters and strings
  // ---------------------------------------------------------------------------

  /** ASCII `Character.toLowerCase`. */
  function LowerChar(c: char): char
  {
    if 'A' <= c <= 'Z' then (c as int + 32) as char else c
  }

  /** ASCII `Character.toUpperCase`. */
  function UpperChar(c: char): char
  {
    if 'a' <= c <= 'z' then (c as int - 32) as char else c
  }

  /** `String.toLowerCase` over ASCII letters. */
  function ToLower(s: string): (r: string)
    ensures |r| == |s|
  {
    seq(|s|, i requires 0 <= i < |s| => LowerChar(s[i]))
  }

  /** `String.toUpperCase` over ASCII letters. */
  function ToUpper(s: string): (r: string)
    ensures |r| == |s|
  {
    seq(|s|, i requires 0 <= i < |s| => UpperChar(s[i]))
  }

  /** `String.replace(char, char)`: every occurrence of `from` becomes `to`. */
  function Replace(s: string, from: char, to: char): (r: string)
    ensures |r| == |s|
  {
    seq(|s|, i requires 0 <= i < |s| => if s[i] == from then to else s[i])
  }

  /** The two characters the flexible names treat as word separators. */
  predicate IsSeparator(c: char)
  {
    c == '-' || c == '_'
  }

  /** The string with every `-` and `_` removed, the other characters kept in order. */
  function Strip(s: string): (r: string)
  {
    if s == [] then []
    else Strip(s[..|s| - 1]) + (if IsSeparator(s[|s| - 1]) then [] else [s[|s| - 1]])
  }

  // ---------------------------------------------------------------------------
  // The case x separator cross product
  // ---------------------------------------------------------------------------

  datatype CaseForm = AsIs | Lower | Upper

  datatype SeparatorForm = Unchanged | DashesForUnderscores | UnderscoresForDashes | NoSeparators

  datatype Form = Form(casing: CaseForm, separators: SeparatorForm)

  function ApplyCase(casing: CaseForm, s: string): string
  {
    match casing
    case AsIs => s
    case Lower => ToLower(s)
    case Upper => ToUpper(s)
  }

  function ApplySeparators(separators: SeparatorForm, s: string): string
  {
    match separators
    case Unchanged => s
    case DashesForUnderscores => Replace(s, '_', '-')
    case UnderscoresForDashes => Replace(s, '-', '_')
    case NoSeparators => Strip(s)
  }

  /** One flexible spelling of `name`: the separator form first, then the case. */
  function Spelling(name: string, form: Form): string
  {
    ApplyCase(form.casing, ApplySeparators(form.separators, name))
  }

  /** A string in its three cases: as given, lower-case and upper-case. */
  function CaseTriple(s: string): set<string>
  {
    {s, ToLower(s), ToUpper(s)}
  }

  /**
   * The names `getNames` adds for one base name: the name, its dash, underscore
   * and separator-free forms, each as given, lower-case and upper-case.
   */
  function Variants(name: string): (r: set<string>)
    ensures |r| <= 12
  {
    CaseTriple(name) + CaseTriple(Replace(name, '_', '-'))
    + CaseTriple(Replace(name, '-', '_')) + CaseTriple(Strip(name))
  }

  /** Variants(name) is the case x separator cross product: every form's spelling and nothing else. */
  lemma VariantsCrossProduct(name: string)
    ensures forall f: Form :: Spelling(name, f) in Variants(name)
    ensures forall v :: v in Variants(name) ==> exists f: Form :: v == Spelling(name, f)
  {
    forall f: Form ensures Spelling(name, f) in Variants(name) {
      SpellingListed(name, f);
    }
    forall v | v in Variants(name) ensures exists f: Form :: v == Spelling(name, f) {
      var separators :| v in CaseTriple(ApplySeparators(separators, name)) by {
        if v in CaseTriple(name) {
          assert name == ApplySeparators(Unchanged, name);
        } else if v in CaseTriple(Replace(name, '_', '-')) {
          assert Replace(name, '_', '-') == ApplySeparators(DashesForUnderscores, name);
        } else if v in CaseTriple(Replace(name, '-', '_')) {
          assert Replace(name, '-', '_') == ApplySeparators(UnderscoresForDashes, name);
        } else {
          assert Strip(name) == ApplySeparators(NoSeparators, name);
        }
      }
      TripleSpellings(name, separators, v);
    }
  }

  lemma SpellingListed(name: string, f: Form)
    ensures Spelling(name, f) in Variants(name)
  {
    match f.separators
    case Unchanged =>
    case DashesForUnderscores =>
    case UnderscoresForDashes =>
    case NoSeparators =>
  }

  lemma TripleSpellings(name: string, separators: SeparatorForm, v: string)
    requires v in CaseTriple(ApplySeparators(separators, name))
    ensures exists f: Form :: v == Spelling(name, f)
  {
    var s := ApplySeparators(separators, name);
    if v == s {
      assert v == Spelling(name, Form(AsIs, separators));
    } else if v == ToLower(s) {
      assert v == Spelling(name, Form(Lower, separators));
    } else {
      assert v == Spelling(name, Form(Upper, separators));
    }
  }

  /** The names `getNames` produces for several base names: the union of their variants. */
  function NamesOf(baseNames: seq<string>): set<string>
  {
    UnionOver(baseNames, Variants)
  }

  /** The union of gen(x) over the strings x of xs, the last one added last. */
  function UnionOver(xs: seq<string>, gen: string -> set<string>): set<string>
  {
    if xs == [] then {} else UnionOver(xs[..|xs| - 1], gen) + gen(xs[|xs| - 1])
  }

  /** Adding one more base name adds its generated names. */
  lemma NamesOfSnoc(baseNames: seq<string>, k: nat)
    requires k < |baseNames|
    ensures NamesOf(baseNames[..k + 1]) == NamesOf(baseNames[..k]) + Variants(baseNames[k])
  {
    assert baseNames[..k + 1][..k] == baseNames[..k];
  }

  // ---------------------------------------------------------------------------
  // What every spelling keeps: the canonical key
  // ---------------------------------------------------------------------------

  /** The part of a name no flexible spelling changes: its letters up to case, without separators. */
  function Key(s: string): string
  {
    ToUpper(Strip(s))
  }

  lemma {:induction false} StripLength(s: string)
    ensures |Strip(s)| <= |s|
  {
    if s != [] {
      StripLength(s[..|s| - 1]);
    }
  }

  /** Removing separators commutes with a case mapping, which never makes or unmakes a separator. */
  lemma {:induction false} StripApplyCase(casing: CaseForm, s: string)
    ensures Strip(ApplyCase(casing, s)) == ApplyCase(casing, Strip(s))
  {
    if s != [] && casing != AsIs {
      var init := s[..|s| - 1];
      var c := ApplyCase(casing, s);
      assert c[..|c| - 1] == ApplyCase(casing, init);
      StripApplyCase(casing, init);
      var last := s[|s| - 1];
      assert IsSeparator(c[|c| - 1]) == IsSeparator(last);
      var tail := if IsSeparator(last) then [] else [last];
      assert ApplyCase(casing, Strip(init) + tail) == ApplyCase(casing, Strip(init)) + ApplyCase(casing, tail);
    }
  }

  /** Turning one separator into the other does not change what remains once separators are removed. */
  lemma {:induction false} StripApplySeparators(separators: SeparatorForm, s: string)
    ensures Strip(ApplySeparators(separators, s)) == Strip(s)
  {
    match separators
    case Unchanged =>
    case NoSeparators => StripIdempotent(s);
    case DashesForUnderscores => StripReplace(s, '_', '-');
    case UnderscoresForDashes => StripReplace(s, '-', '_');
  }

  lemma {:induction false} StripIdempotent(s: string)
    ensures Strip(Strip(s)) == Strip(s)
  {
    if s != [] {
      var init := s[..|s| - 1];
      StripIdempotent(init);
      var last := s[|s| - 1];
      if IsSeparator(last) {
        assert Strip(s) == Strip(init);
      } else {
        var t := Strip(init) + [last];
        assert Strip(s) == t;
        assert t[..|t| - 1] == Strip(init);
      }
    }
  }

  lemma {:induction false} StripReplace(s: string, from: char, to: char)
    requires IsSeparator(from) && IsSeparator(to)
    ensures Strip(Replace(s, from, to)) == Strip(s)
  {
    if s != [] {
      var init := s[..|s| - 1];
      var r := Replace(s, from, to);
      assert r[..|r| - 1] == Replace(init, from, to);
      StripReplace(init, from, to);
    }
  }

  lemma UpperApplyCase(casing: CaseForm, s: string)
    ensures ToUpper(ApplyCase(casing, s)) == ToUpper(s)
  {
  }

  /**
   * Every flexible spelling has the same key as the name it was made from: no
   * spelling changes a non-separator character other than in its case, drops
   * one, or reorders them.
   */
  lemma SpellingKey(name: string, f: Form)
    ensures Key(Spelling(name, f)) == Key(name)
  {
    var separated := ApplySeparators(f.separators, name);
    StripApplyCase(f.casing, separated);
    UpperApplyCase(f.casing, Strip(separated));
    StripApplySeparators(f.separators, name);
  }

  /** Every name in Variants(name) has the key of `name`. */
  lemma VariantKey(name: string, v: string)
    requires v in Variants(name)
    ensures Key(v) == Key(name)
  {
    VariantsCrossProduct(name);
    var f: Form :| v == Spelling(name, f);
    SpellingKey(name, f);
  }

  /** No flexible spelling is longer than the name it was made from. */
  lemma VariantLength(name: string, v: string)
    requires v in Variants(name)
    ensures |v| <= |name|
  {
    StripLength(name);
    if v in CaseTriple(Strip(name)) {
      CaseTripleLength(Strip(name), v);
    } else if v in CaseTriple(Replace(name, '_', '-')) {
      CaseTripleLength(Replace(name, '_', '-'), v);
    } else if v in CaseTriple(Replace(name, '-', '_')) {
      CaseTripleLength(Replace(name, '-', '_'), v);
    } else {
      CaseTripleLength(name, v);
    }
  }

  /** A case mapping keeps the length. */
  lemma CaseTripleLength(s: string, v: string)
    requires v in CaseTriple(s)
    ensures |v| == |s|
  {
  }

  /** A name without separators is its own separator-free form. */
  lemma {:induction false} StripWithoutSeparators(s: string)
    requires forall i :: 0 <= i < |s| ==> !IsSeparator(s[i])
    ensures Strip(s) == s
  {
    if s != [] {
      StripWithoutSeparators(s[..|s| - 1]);
    }
  }

  // ---------------------------------------------------------------------------
  // The generator, as the test helper runs it
  // ---------------------------------------------------------------------------

  /** Builds the separator-free form of `name` one character at a time. */
  method StripSeparators(name: string) returns (stripped: string)
    ensures stripped == Strip(name)
  {
    stripped := [];
    for i := 0 to |name|
      invariant stripped == Strip(name[..i])
    {
      var c := name[i];
      assert name[..i + 1][..i] == name[..i];
      if c != '-' && c != '_' {
        stripped := stripped + [c];
      }
    }
    assert name[..|name|] == name;
  }

  /** Collects the flexible spellings of every base name into one set. */
  method GetNames(baseNames: seq<string>) returns (nameSet: set<string>)
    ensures nameSet == NamesOf(baseNames)
    ensures forall v :: v in nameSet <==> exists i :: 0 <= i < |baseNames| && v in Variants(baseNames[i])
    ensures |nameSet| <= 12 * |baseNames|
  {
    nameSet := {};
    for k := 0 to |baseNames|
      invariant nameSet == NamesOf(baseNames[..k])
    {
      var name := baseNames[k];
      ghost var before := nameSet;
      nameSet := nameSet + {name};
      nameSet := nameSet + {ToLower(name)};
      nameSet := nameSet + {ToUpper(name)};

      var nameWithDashesInsteadOfUnderscores := Replace(name, '_', '-');
      nameSet := nameSet + {nameWithDashesInsteadOfUnderscores};
      nameSet := nameSet + {ToLower(nameWithDashesInsteadOfUnderscores)};
      nameSet := nameSet + {ToUpper(nameWithDashesInsteadOfUnderscores)};

      var nameWithUnderscoresInsteadOfDashes := Replace(name, '-', '_');
      nameSet := nameSet + {nameWithUnderscoresInsteadOfDashes};
      nameSet := nameSet + {ToLower(nameWithUnderscoresInsteadOfDashes)};
      nameSet := nameSet + {ToUpper(nameWithUnderscoresInsteadOfDashes)};

      var nameWithoutUnderscoresOrDashes := StripSeparators(name);
      ghost var partial := nameSet;
      nameSet := nameSet + {nameWithoutUnderscoresOrDashes};
      nameSet := nameSet + {ToLower(nameWithoutUnderscoresOrDashes)};
      nameSet := nameSet + {ToUpper(nameWithoutUnderscoresOrDashes)};

      GeneratorAddsVariants(before, partial, name);
      NamesOfSnoc(baseNames, k);
    }
    assert baseNames[..|baseNames|] == baseNames;
    forall v ensures v in nameSet <==> exists i :: 0 <= i < |baseNames| && v in Variants(baseNames[i]) {
      UnionOverMembership(baseNames, Variants, v);
    }
    NamesOfSize(baseNames);
  }

  /** Each base name contributes at most twelve names. */
  lemma {:induction false} NamesOfSize(baseNames: seq<string>)
    ensures |NamesOf(baseNames)| <= 12 * |baseNames|
  {
    if baseNames != [] {
      var init := baseNames[..|baseNames| - 1];
      NamesOfSize(init);
      var last := Variants(baseNames[|baseNames| - 1]);
      assert NamesOf(baseNames) == NamesOf(init) + last;
      assert |NamesOf(init) + last| <= |NamesOf(init)| + |last|;
    }
  }

  /** The twelve additions of one round of the generator add exactly the variants of its base name. */
  lemma GeneratorAddsVariants(before: set<string>, partial: set<string>, name: string)
    requires partial == before + CaseTriple(name) + CaseTriple(Replace(name, '_', '-'))
                      + CaseTriple(Replace(name, '-', '_'))
    ensures partial + {Strip(name)} + {ToLower(Strip(name))} + {ToUpper(Strip(name))} == before + Variants(name)
  {
  }

  /** A string is in the union exactly when one of the strings generates it. */
  lemma {:induction false} UnionOverMembership(xs: seq<string>, gen: string -> set<string>, v: string)
    ensures v in UnionOver(xs, gen) <==> exists i :: 0 <= i < |xs| && v in gen(xs[i])
  {
    if xs != [] {
      var init := xs[..|xs| - 1];
      UnionOverMembership(init, gen, v);
      if v in UnionOver(init, gen) {
        var i :| 0 <= i < |init| && v in gen(init[i]);
        assert xs[i] == init[i];
      } else if v !in gen(xs[|xs| - 1]) {
        forall i | 0 <= i < |xs| ensures v !in gen(xs[i]) {
          if i < |init| {
            assert init[i] == xs[i];
          }
        }
      }
    }
  }
}
