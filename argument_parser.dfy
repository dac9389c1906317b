/**
 * The part of the SDK's command-line argument parser that the tool relies on:
 * declared arguments, the two kinds of argument sets a tool can declare, and
 * how a set is checked against the arguments present on the command line.
 *
 *  - An exclusive set: at most one of its members may be present.
 *  - A dependent set (target, prerequisites): if the target is present, at
 *    least one of the prerequisites must be present too.
 *
 * Turning command-line tokens into present arguments is not modelled: a parse
 * result is a map from each present argument to its value (None for a flag).
 */
module ArgumentParsing {
  import opened Wrappers

  /** A declared argument: its primary long identifier and whether it takes a value. */
  class Argument {
    const longIdentifier: string
    const takesValue: bool

    constructor (longIdentifier: string, takesValue: bool)
      ensures this.longIdentifier == longIdentifier && this.takesValue == takesValue
    {
      this.longIdentifier := longIdentifier;
      this.takesValue := takesValue;
    }
  }

  /** The arguments present on the command line, each with its value (None for a flag). */
  type Parsed = map<Argument, Option<string>>

  /** A value argument carries a value, a flag does not. */
  predicate WellParsed(parsed: Parsed)
  {
    forall a :: a in parsed ==> (parsed[a].Some? <==> a.takesValue)
  }

  /** `getValue()`: the argument's value, or None (null) when it is absent. */
  function ValueOf(parsed: Parsed, a: Argument): (r: Option<string>)
    requires WellParsed(parsed)
    ensures r.Some? <==> a in parsed && a.takesValue
    ensures a in parsed ==> r == parsed[a]
  {
    if a in parsed then parsed[a] else None
  }

  datatype ArgumentSet =
    | Exclusive(members: seq<Argument>)
    | Dependent(target: Argument, prerequisites: seq<Argument>)

  /** Thrown when the arguments do not satisfy a tool's own rule (no OTP to register). */
  datatype ArgumentException = NoOtpToRegister(otpIdentifier: string)

  /** How many of `members` are present. */
  function PresentCount(members: seq<Argument>, parsed: Parsed): (n: nat)
    ensures n <= |members|
    ensures n == 0 <==> forall i :: 0 <= i < |members| ==> members[i] !in parsed
  {
    if members == [] then 0
    else
      var rest := PresentCount(members[1..], parsed);
      assert forall i :: 1 <= i < |members| ==> members[i] == members[1..][i - 1];
      (if members[0] in parsed then 1 else 0) + rest
  }

  predicate Satisfied(argumentSet: ArgumentSet, parsed: Parsed)
  {
    match argumentSet
    case Exclusive(members) => PresentCount(members, parsed) <= 1
    case Dependent(target, prerequisites) =>
      target in parsed ==> exists i :: 0 <= i < |prerequisites| && prerequisites[i] in parsed
  }

  /** The declared sets the parse result violates, in declaration order. */
  function Violations(argumentSets: seq<ArgumentSet>, parsed: Parsed): (r: seq<ArgumentSet>)
    ensures forall i :: 0 <= i < |r| ==> r[i] in argumentSets && !Satisfied(r[i], parsed)
    ensures forall i :: 0 <= i < |argumentSets| && !Satisfied(argumentSets[i], parsed) ==> argumentSets[i] in r
    ensures r == [] <==> forall i :: 0 <= i < |argumentSets| ==> Satisfied(argumentSets[i], parsed)
  {
    if argumentSets == [] then []
    else
      var rest := Violations(argumentSets[1..], parsed);
      assert forall i :: 1 <= i < |argumentSets| ==> argumentSets[i] == argumentSets[1..][i - 1];
      (if Satisfied(argumentSets[0], parsed) then [] else [argumentSets[0]]) + rest
  }

  /** The parser: the arguments and argument sets a tool has declared, in order. */
  class ArgumentParser {
    var arguments: seq<Argument>
    var argumentSets: seq<ArgumentSet>

    constructor ()
      ensures arguments == [] && argumentSets == []
    {
      arguments := [];
      argumentSets := [];
    }

    method AddArgument(a: Argument)
      modifies this
      ensures arguments == old(arguments) + [a]
      ensures argumentSets == old(argumentSets)
    {
      arguments := arguments + [a];
    }

    /** At most one of the given arguments may be present. */
    method AddExclusiveArgumentSet(arg1: Argument, arg2: Argument, remaining: seq<Argument>)
      modifies this
      ensures argumentSets == old(argumentSets) + [Exclusive([arg1, arg2] + remaining)]
      ensures arguments == old(arguments)
    {
      argumentSets := argumentSets + [Exclusive([arg1, arg2] + remaining)];
    }

    /** If `target` is present, at least one of the dependent arguments must be. */
    method AddDependentArgumentSet(target: Argument, dependent1: Argument, remaining: seq<Argument>)
      modifies this
      ensures argumentSets == old(argumentSets) + [Dependent(target, [dependent1] + remaining)]
      ensures arguments == old(arguments)
    {
      argumentSets := argumentSets + [Dependent(target, [dependent1] + remaining)];
    }
  }

  /** Of three arguments, at most one is present exactly when no two of them are. */
  lemma ExclusiveOfThree(a: Argument, b: Argument, c: Argument, parsed: Parsed)
    ensures Satisfied(Exclusive([a, b, c]), parsed) <==>
      !(a in parsed && b in parsed) && !(a in parsed && c in parsed) && !(b in parsed && c in parsed)
  {
    assert [a, b, c][1..] == [b, c];
    assert [b, c][1..] == [c];
    assert [c][1..] == [];
    assert PresentCount([c], parsed) == (if c in parsed then 1 else 0);
    assert PresentCount([b, c], parsed) == (if b in parsed then 1 else 0) + PresentCount([c], parsed);
    assert PresentCount([a, b, c], parsed) == (if a in parsed then 1 else 0) + PresentCount([b, c], parsed);
  }

  /** A dependent set with one prerequisite: the target needs that prerequisite. */
  lemma DependentOnOne(target: Argument, prerequisite: Argument, parsed: Parsed)
    ensures Satisfied(Dependent(target, [prerequisite]), parsed) <==>
      (target in parsed ==> prerequisite in parsed)
  {
    if prerequisite in parsed {
      assert [prerequisite][0] in parsed;
    }
  }
}
