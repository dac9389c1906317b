/**
 * The change types of the set-notification-destination extended operation:
 * REPLACE (code 0), ADD (code 1) and DELETE (code 2), with the lookups every
 * SDK enum offers (see ExtensibleEnum).
 */
module SetNotificationDestinationChangeType {
  import opened Wrappers
  import opened NameVariants
  import ExtensibleEnum

  datatype ChangeType = REPLACE | ADD | DELETE

  /** `intValue()`. */
  function IntValue(t: ChangeType): int
  {
    match t
    case REPLACE => 0
    case ADD => 1
    case DELETE => 2
  }

  /** `name()`: the constant's identifier. */
  function Name(t: ChangeType): string
  {
    match t
    case REPLACE => "REPLACE"
    case ADD => "ADD"
    case DELETE => "DELETE"
  }

  /** `values()`, in declaration order. */
  const Values: seq<ChangeType> := [REPLACE, ADD, DELETE]

  /** `valueOf(int)`. */
  function ValueOf(intValue: int): (r: Option<ChangeType>)
    ensures r.Some? ==> IntValue(r.value) == intValue
    ensures r.None? <==> intValue !in {0, 1, 2}
  {
    ExtensibleEnum.ValueOfCode(Values, IntValue, intValue)
  }

  /** `valueOf(String)`: strict, throws for anything but an exact constant name. */
  function ValueOfName(s: string): (r: Result<ChangeType, ExtensibleEnum.IllegalArgumentException>)
    ensures r.Success? ==> Name(r.value) == s
    ensures r.Failure? <==> s !in {"REPLACE", "ADD", "DELETE"}
  {
    ExtensibleEnum.ValueOfName(Values, Name, s)
  }

  /** `forName(String)`: the constant of which `s` is a flexible spelling, or None. */
  function ForName(s: string): (r: Option<ChangeType>)
    ensures r.Some? ==> s in Variants(Name(r.value))
    ensures r.None? <==> forall i :: 0 <= i < |Values| ==> s !in Variants(Name(Values[i]))
  {
    ExtensibleEnum.ForName(Values, Name, s)
  }

  /** Where a constant sits in Values. */
  function Index(t: ChangeType): (i: nat)
    ensures i < |Values| && Values[i] == t
  {
    match t
    case REPLACE => 0
    case ADD => 1
    case DELETE => 2
  }

  /** The constants' names agree with no other constant's name up to case and separators. */
  lemma ValuesHaveDistinctKeys()
    ensures ExtensibleEnum.DistinctKeys(Values, Name)
  {
    forall t: ChangeType ensures Key(Name(t)) == ToUpper(Name(t)) {
      StripWithoutSeparators(Name(t));
    }
  }

  /** The codes the test pins down: REPLACE is 0, ADD is 1, DELETE is 2, and each code leads back to its constant. */
  lemma Codes()
    ensures IntValue(REPLACE) == 0 && ValueOf(0) == Some(REPLACE)
    ensures IntValue(ADD) == 1 && ValueOf(1) == Some(ADD)
    ensures IntValue(DELETE) == 2 && ValueOf(2) == Some(DELETE)
  {
    RoundTrips(REPLACE);
    RoundTrips(ADD);
    RoundTrips(DELETE);
  }

  /** Every constant is found again from its code and from its name. */
  lemma RoundTrips(t: ChangeType)
    ensures ValueOf(IntValue(t)) == Some(t)
    ensures ValueOfName(Name(t)) == Success(t)
  {
    ValuesHaveDistinctKeys();
    ExtensibleEnum.DistinctKeysDistinctNames(Values, Name);
    ExtensibleEnum.ValueOfCodeRoundTrip(Values, IntValue, Index(t));
    ExtensibleEnum.ValueOfNameRoundTrip(Values, Name, Index(t));
  }

  /** An unknown code is an absence: `valueOf(3)` is null. */
  lemma UnknownCode()
    ensures ValueOf(3) == None
  {
  }

  /** An unknown name is an error for the strict lookup. */
  lemma UndefinedNameThrows()
    ensures ValueOfName("undefined") == Failure(ExtensibleEnum.NoEnumConstant("undefined"))
  {
  }

  /** Every spelling `getNames` generates for a constant's name resolves to that constant. */
  lemma ForNameAllSpellings(t: ChangeType, s: string)
    requires s in Variants(Name(t))
    ensures ForName(s) == Some(t)
  {
    ValuesHaveDistinctKeys();
    ExtensibleEnum.ForNameRoundTrip(Values, Name, Index(t), s);
  }

  /** `forName("some undefined name")` is null. */
  lemma ForNameUndefined()
    ensures ForName("some undefined name") == None
  {
    ExtensibleEnum.ForNameRejectsLonger(Values, Name, "some undefined name");
  }
}
