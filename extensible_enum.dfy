/**
 * The lookup contract shared by the SDK's enums of named constants with
 * integer codes. An enum is described by its constants in declaration order
 * (`values()`), each constant's name (`name()`) and its code (`intValue()`):
 *
 *  - `valueOf(int)` returns the constant with that code, or null;
 *  - `valueOf(String)` is Java's strict lookup by exact name and throws
 *    IllegalArgumentException for a name no constant has;
 *  - `forName(String)` accepts any flexible spelling of a constant's name
 *    (see NameVariants) and returns null for anything else.
 */
module ExtensibleEnum {
  import opened Wrappers
  import opened NameVariants

  /** Thrown by the strict lookup for a name that no constant has. */
  datatype IllegalArgumentException = NoEnumConstant(name: string)

  /** No two constants share a code. */
  predicate DistinctCodes<T>(values: seq<T>, code: T -> int)
  {
    forall i, j :: 0 <= i < j < |values| ==> code(values[i]) != code(values[j])
  }

  /** No two constants share a name. */
  predicate DistinctNames<T>(values: seq<T>, name: T -> string)
  {
    forall i, j :: 0 <= i < j < |values| ==> name(values[i]) != name(values[j])
  }

  /** No two constants have names that agree up to case and separators, so no flexible spelling is ambiguous. */
  predicate DistinctKeys<T>(values: seq<T>, name: T -> string)
  {
    forall i, j :: 0 <= i < j < |values| ==> Key(name(values[i])) != Key(name(values[j]))
  }

  /** `valueOf(int)`: the constant whose code is `intValue`, or None when no constant has it. */
  function ValueOfCode<T>(values: seq<T>, code: T -> int, intValue: int): (r: Option<T>)
    ensures r.Some? ==> r.value in values && code(r.value) == intValue
    ensures r.None? <==> forall i :: 0 <= i < |values| ==> code(values[i]) != intValue
  {
    if values == [] then None
    else if code(values[0]) == intValue then Some(values[0])
    else
      var r := ValueOfCode(values[1..], code, intValue);
      assert forall i :: 1 <= i < |values| ==> values[i] == values[1..][i - 1];
      r
  }

  /** `valueOf(String)`: the constant named exactly `s`; any other string is an error, not an absence. */
  function ValueOfName<T>(values: seq<T>, name: T -> string, s: string): (r: Result<T, IllegalArgumentException>)
    ensures r.Success? ==> r.value in values && name(r.value) == s
    ensures r.Failure? <==> forall i :: 0 <= i < |values| ==> name(values[i]) != s
    ensures r.Failure? ==> r.error == NoEnumConstant(s)
  {
    if values == [] then Failure(NoEnumConstant(s))
    else if name(values[0]) == s then Success(values[0])
    else
      var r := ValueOfName(values[1..], name, s);
      assert forall i :: 1 <= i < |values| ==> values[i] == values[1..][i - 1];
      r
  }

  /** `forName(String)`: the constant of which `s` is a flexible spelling, or None. */
  function ForName<T>(values: seq<T>, name: T -> string, s: string): (r: Option<T>)
    ensures r.Some? ==> r.value in values && s in Variants(name(r.value))
    ensures r.None? <==> forall i :: 0 <= i < |values| ==> s !in Variants(name(values[i]))
  {
    if values == [] then None
    else if s in Variants(name(values[0])) then Some(values[0])
    else
      var r := ForName(values[1..], name, s);
      assert forall i :: 1 <= i < |values| ==> values[i] == values[1..][i - 1];
      r
  }

  /** Every constant is found again from its own code. */
  lemma {:induction false} ValueOfCodeRoundTrip<T>(values: seq<T>, code: T -> int, k: nat)
    requires DistinctCodes(values, code)
    requires k < |values|
    ensures ValueOfCode(values, code, code(values[k])) == Some(values[k])
  {
    if k > 0 {
      assert code(values[0]) != code(values[k]);
      assert DistinctCodes(values[1..], code) by {
        forall i, j | 0 <= i < j < |values| - 1
          ensures code(values[1..][i]) != code(values[1..][j])
        {
          assert values[1..][i] == values[i + 1] && values[1..][j] == values[j + 1];
        }
      }
      assert values[1..][k - 1] == values[k];
      ValueOfCodeRoundTrip(values[1..], code, k - 1);
    }
  }

  /** Names distinct up to case and separators are distinct names. */
  lemma DistinctKeysDistinctNames<T>(values: seq<T>, name: T -> string)
    requires DistinctKeys(values, name)
    ensures DistinctNames(values, name)
  {
    forall i, j | 0 <= i < j < |values| ensures name(values[i]) != name(values[j]) {
      assert Key(name(values[i])) != Key(name(values[j]));
    }
  }

  /** Every constant is found again from its own name by the strict lookup. */
  lemma {:induction false} ValueOfNameRoundTrip<T>(values: seq<T>, name: T -> string, k: nat)
    requires DistinctNames(values, name)
    requires k < |values|
    ensures ValueOfName(values, name, name(values[k])) == Success(values[k])
  {
    if k > 0 {
      assert name(values[0]) != name(values[k]);
      assert DistinctNames(values[1..], name) by {
        forall i, j | 0 <= i < j < |values| - 1
          ensures name(values[1..][i]) != name(values[1..][j])
        {
          assert values[1..][i] == values[i + 1] && values[1..][j] == values[j + 1];
        }
      }
      assert values[1..][k - 1] == values[k];
      ValueOfNameRoundTrip(values[1..], name, k - 1);
    }
  }

  /**
   * Every flexible spelling of a constant's name resolves to that constant: the
   * spelling keeps the name's key, and no other constant has that key.
   */
  lemma ForNameRoundTrip<T>(values: seq<T>, name: T -> string, k: nat, s: string)
    requires DistinctKeys(values, name)
    requires k < |values|
    requires s in Variants(name(values[k]))
    ensures ForName(values, name, s) == Some(values[k])
  {
    var r := ForName(values, name, s);
    var j :| 0 <= j < |values| && values[j] == r.value;
    VariantKey(name(values[k]), s);
    VariantKey(name(values[j]), s);
  }

  /** forName returns a constant exactly when the string is one of that constant's flexible spellings. */
  lemma ForNameIff<T>(values: seq<T>, name: T -> string, k: nat, s: string)
    requires DistinctKeys(values, name)
    requires k < |values|
    ensures ForName(values, name, s) == Some(values[k]) <==> s in Variants(name(values[k]))
  {
    if s in Variants(name(values[k])) {
      ForNameRoundTrip(values, name, k, s);
    }
  }

  /** A string whose key is no constant's key is rejected by the flexible lookup. */
  lemma ForNameRejects<T>(values: seq<T>, name: T -> string, s: string)
    requires forall i :: 0 <= i < |values| ==> Key(s) != Key(name(values[i]))
    ensures ForName(values, name, s) == None
  {
    forall i | 0 <= i < |values| ensures s !in Variants(name(values[i])) {
      if s in Variants(name(values[i])) {
        VariantKey(name(values[i]), s);
      }
    }
  }

  /** A string longer than every constant's name is rejected by the flexible lookup. */
  lemma ForNameRejectsLonger<T>(values: seq<T>, name: T -> string, s: string)
    requires forall i :: 0 <= i < |values| ==> |name(values[i])| < |s|
    ensures ForName(values, name, s) == None
  {
    forall i | 0 <= i < |values| ensures s !in Variants(name(values[i])) {
      if s in Variants(name(values[i])) {
        VariantLength(name(values[i]), s);
      }
    }
  }
}
