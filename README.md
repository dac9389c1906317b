# register-yubikey-otp-device and the SDK enum lookups, in Dafny

This project models two pieces of decision logic from the UnboundID LDAP SDK.

1. **The `register-yubikey-otp-device` tool.** The tool registers a YubiKey OTP device for a user. It can also deregister one device or all of a user's devices. The model covers three things:
   - the six arguments the tool declares, and the argument sets that constrain them: at most one static-password source, and every source needs `--authID`;
   - the tool's own rule that `--deregister` or `--otp` must be given;
   - `doToolProcessing`. This connects, obtains the static password from the first source given, sends one extended request and reports its result. The connection is closed on every path once it is open.

   `main` passes a non-SUCCESS result code's integer value to `System.exit`.

   The surroundings are given as scripted objects (`LDAPConnection`, `PasswordFileReader`, `Terminal`), each with a fixed outcome:
   - the connection attempt succeeds with a connection whose one extended operation returns or throws, or it fails with the `LDAPException` that `getConnection` threw;
   - the password file either fails to open or yields its first line (or a read error);
   - the terminal yields the typed password or a failure.

   `DoToolProcessing` is an imperative method over these objects. Its contract ties its result code, its message and every effect on those objects to the pure function `Dispatch`. The properties of the tool are proved as lemmas about `Dispatch`.

2. **The SDK's extensible-enum lookup contract and the `getNames` spelling generator** of the enum test cases. `ExtensibleEnum` states the three lookups generically, over a constant table (`values()`, `name()`, `intValue()`):
   - `valueOf(int)` returns null for an unknown code;
   - `valueOf(String)` is strict and throws `IllegalArgumentException`;
   - `forName(String)` accepts any flexible spelling and returns null otherwise.

   `SetNotificationDestinationChangeType` instantiates the lookups with REPLACE=0, ADD=1, DELETE=2. `NameVariants` defines the flexible spellings of a name as the 12-way cross product {as given, lower, upper} × {as given, `_`→`-`, `-`→`_`, separators removed}. It also holds `GetNames`, the imperative generator the tests use, proved equal to that set. The central fact is proved there: a spelling changes nothing in the name but letter case and separators. From that, and from the constants' names being distinct up to case and separators, every spelling resolves back to its own constant.

Modules:
- `Wrappers`: `Option` stands for a nullable reference, `Result` for a value or a thrown exception, and `Outcome` for a check that passes or throws.
- `ArgumentParsing`: the part of the SDK's argument parser that the tool uses.
- `RegisterYubiKeyOTPDevice`: the tool.
- `NameVariants`, `ExtensibleEnum` and `SetNotificationDestinationChangeType`: the enum lookups and the spelling generator.

## Model

Source paths below are abbreviated:
- `T` = `src/com/unboundid/ldap/sdk/unboundidds/RegisterYubiKeyOTPDevice.java`
- `C` = `tests/unit/src/com/unboundid/ldap/sdk/unboundidds/extensions/SetNotificationDestinationChangeTypeTestCase.java`
- `L` = `tests/unit/src/com/unboundid/ldap/sdk/unboundidds/controls/TransactionSettingsBackendLockBehaviorTestCase.java`

The table cells hold the full paths.

| member | source | states |
|---|---|---|
| RegisterYubiKeyOTPDevice.RegisterYubiKeyOTPDevice.constructor | src/com/unboundid/ldap/sdk/unboundidds/RegisterYubiKeyOTPDevice.java:163-174 | a new tool has all six argument fields null |
| RegisterYubiKeyOTPDevice.RegisterYubiKeyOTPDevice.AddNonLDAPArguments | src/com/unboundid/ldap/sdk/unboundidds/RegisterYubiKeyOTPDevice.java:216-271 | declares six fresh, distinct arguments, namely the flags `deregister` and `promptForUserPassword` and the value arguments `otp`, `authID`, `userPassword` and `userPasswordFile`; it appends them to the parser in declaration order and appends exactly the four argument sets: one exclusive set over the three password sources, and three dependent sets on `authID` |
| RegisterYubiKeyOTPDevice.RegisterYubiKeyOTPDevice.Declare | src/com/unboundid/ldap/sdk/unboundidds/RegisterYubiKeyOTPDevice.java:222-270 | the parser gains the six arguments in order, then the exclusive set and the three dependent sets, and nothing else |
| RegisterYubiKeyOTPDevice.ToolArgumentSetsMeaning | src/com/unboundid/ldap/sdk/unboundidds/RegisterYubiKeyOTPDevice.java:259-270 | the four declared sets are all satisfied iff no two of `userPassword`, `userPasswordFile` and `promptForUserPassword` are present and any of them present implies `authID` is present (both directions) |
| RegisterYubiKeyOTPDevice.RegisterYubiKeyOTPDevice.AcceptedInvocations | src/com/unboundid/ldap/sdk/unboundidds/RegisterYubiKeyOTPDevice.java:259-290 | a parse result passes the argument sets and the extended validation iff at most one password source is given, every source comes with an authentication ID, and `--deregister` or `--otp` is present |
| RegisterYubiKeyOTPDevice.ExtendedValidation | src/com/unboundid/ldap/sdk/unboundidds/RegisterYubiKeyOTPDevice.java:279-290 | fails iff neither `--deregister` nor `--otp` is present, and then the error is the no-OTP-to-register error naming the otp argument's identifier |
| RegisterYubiKeyOTPDevice.RegisterYubiKeyOTPDevice.DoExtendedNonLDAPArgumentValidation | src/com/unboundid/ldap/sdk/unboundidds/RegisterYubiKeyOTPDevice.java:279-290 | fails exactly when neither the deregister argument nor the otp argument is in the parse result |
| RegisterYubiKeyOTPDevice.RegisterYubiKeyOTPDevice.Snapshot | src/com/unboundid/ldap/sdk/unboundidds/RegisterYubiKeyOTPDevice.java:408-413 | the invocation records each of the six arguments as present exactly when it is in the parse result, and each present value argument with its parsed value |
| ArgumentParsing.ValueOf | src/com/unboundid/ldap/sdk/unboundidds/RegisterYubiKeyOTPDevice.java:408 | `getValue()` is the parsed value of a present argument, and it is non-null exactly for a present value argument |
| ArgumentParsing.PresentCount | src/com/unboundid/ldap/sdk/unboundidds/RegisterYubiKeyOTPDevice.java:262-263 | the count of present members is at most the number of members, and it is zero iff none is present |
| ArgumentParsing.Violations | src/com/unboundid/ldap/sdk/unboundidds/RegisterYubiKeyOTPDevice.java:259-270 | every reported set is declared and unsatisfied; every unsatisfied declared set is reported; nothing is reported iff every set is satisfied |
| ArgumentParsing.ExclusiveOfThree | src/com/unboundid/ldap/sdk/unboundidds/RegisterYubiKeyOTPDevice.java:262-263 | an exclusive set of three is satisfied iff no two of its members are present |
| ArgumentParsing.DependentOnOne | src/com/unboundid/ldap/sdk/unboundidds/RegisterYubiKeyOTPDevice.java:268-270 | a dependent set with one prerequisite is satisfied iff the target's presence implies the prerequisite's |
| ArgumentParsing.Argument.constructor | src/com/unboundid/ldap/sdk/unboundidds/RegisterYubiKeyOTPDevice.java:219-221 | an argument keeps its long identifier and whether it takes a value |
| ArgumentParsing.ArgumentParser.constructor | src/com/unboundid/ldap/sdk/unboundidds/RegisterYubiKeyOTPDevice.java:216-217 | a parser starts with no arguments and no argument sets |
| ArgumentParsing.ArgumentParser.AddArgument | src/com/unboundid/ldap/sdk/unboundidds/RegisterYubiKeyOTPDevice.java:222 | appends the argument; the argument sets are unchanged |
| ArgumentParsing.ArgumentParser.AddExclusiveArgumentSet | src/com/unboundid/ldap/sdk/unboundidds/RegisterYubiKeyOTPDevice.java:262-263 | appends one exclusive set over the given arguments; the arguments are unchanged |
| ArgumentParsing.ArgumentParser.AddDependentArgumentSet | src/com/unboundid/ldap/sdk/unboundidds/RegisterYubiKeyOTPDevice.java:268-270 | appends one dependent set of the target on the given prerequisites; the arguments are unchanged |
| RegisterYubiKeyOTPDevice.Utf8 | src/com/unboundid/ldap/sdk/unboundidds/RegisterYubiKeyOTPDevice.java:413 | a character encodes to one to four bytes, and to a single byte equal to its code iff it is ASCII |
| RegisterYubiKeyOTPDevice.GetBytes | src/com/unboundid/ldap/sdk/unboundidds/RegisterYubiKeyOTPDevice.java:413 | the UTF-8 encoding of a string has between one and four bytes per character |
| RegisterYubiKeyOTPDevice.GetBytesAscii | src/com/unboundid/ldap/sdk/unboundidds/RegisterYubiKeyOTPDevice.java:413 | an ASCII password encodes to one byte per character, each byte equal to the character's code |
| RegisterYubiKeyOTPDevice.StaticPassword | src/com/unboundid/ldap/sdk/unboundidds/RegisterYubiKeyOTPDevice.java:410-466 | the inline value wins; otherwise the UTF-8 bytes of the file's first line, failing iff the file cannot be opened or read; otherwise the typed password, failing iff reading it fails; it is null iff no source is given; only the file or the prompt can fail |
| RegisterYubiKeyOTPDevice.BuildRequest | src/com/unboundid/ldap/sdk/unboundidds/RegisterYubiKeyOTPDevice.java:470-514 | a deregister request iff `--deregister` is present; the request carries the authentication ID and the static password; a register request carries the given OTP, and a deregister request carries the OTP or null |
| RegisterYubiKeyOTPDevice.ExtendedResultFor | src/com/unboundid/ldap/sdk/unboundidds/RegisterYubiKeyOTPDevice.java:481-484 | the result made from an exception keeps its result code |
| RegisterYubiKeyOTPDevice.ResultOf | src/com/unboundid/ldap/sdk/unboundidds/RegisterYubiKeyOTPDevice.java:477-484 | a returned result is used as is; a thrown exception becomes a result with the exception's code |
| RegisterYubiKeyOTPDevice.Report | src/com/unboundid/ldap/sdk/unboundidds/RegisterYubiKeyOTPDevice.java:486-538 | the code is the result's own code; on SUCCESS the message is register-succeeded, deregister-one iff the OTP was given, or deregister-all otherwise; on failure it is the register or deregister failure naming the result |
| RegisterYubiKeyOTPDevice.Dispatch | src/com/unboundid/ldap/sdk/unboundidds/RegisterYubiKeyOTPDevice.java:387-545 | a connect failure returns that exception's code with no request; a password failure returns LOCAL_ERROR with no request; a request is sent iff connected and the password was obtained, and then it is the built request and the code and message are those of its result |
| RegisterYubiKeyOTPDevice.RegisterCarriesOtp | src/com/unboundid/ldap/sdk/unboundidds/RegisterYubiKeyOTPDevice.java:510-514 | a register request is sent only without `--deregister`, and it carries exactly the OTP given |
| RegisterYubiKeyOTPDevice.NothingSentMeansLocalFailure | src/com/unboundid/ldap/sdk/unboundidds/RegisterYubiKeyOTPDevice.java:391-466 | when nothing is sent, either the connection failed and its code is returned, or no inline password was given, the file (when given) or else the prompt was the chosen source, reading from it failed, and LOCAL_ERROR is returned |
| RegisterYubiKeyOTPDevice.ThrownLikeReturned | src/com/unboundid/ldap/sdk/unboundidds/RegisterYubiKeyOTPDevice.java:477-524 | an exception thrown by the extended operation leads to the same run as a returned result with the same code and message, so it never escapes |
| RegisterYubiKeyOTPDevice.SuccessMeansAccepted | src/com/unboundid/ldap/sdk/unboundidds/RegisterYubiKeyOTPDevice.java:486-538 | the tool returns SUCCESS iff a request was sent and the server answered SUCCESS, or the connection exception itself carried SUCCESS (its code is returned unchanged) |
| RegisterYubiKeyOTPDevice.ExitCall | src/com/unboundid/ldap/sdk/unboundidds/RegisterYubiKeyOTPDevice.java:117-124 | `main` calls `System.exit` iff the code is not SUCCESS, and then with the code's integer value |
| RegisterYubiKeyOTPDevice.ExitStatusIsCode | src/com/unboundid/ldap/sdk/unboundidds/RegisterYubiKeyOTPDevice.java:117-124 | the status passed to `System.exit`, or 0 when `main` returns normally, equals the result code's integer value in both cases |
| RegisterYubiKeyOTPDevice.LDAPConnection.ProcessExtendedOperation | src/com/unboundid/ldap/sdk/unboundidds/RegisterYubiKeyOTPDevice.java:479 | records the request as sent and yields the connection's outcome |
| RegisterYubiKeyOTPDevice.LDAPConnection.Close | src/com/unboundid/ldap/sdk/unboundidds/RegisterYubiKeyOTPDevice.java:543 | marks the connection closed; the record of sent requests is unchanged |
| RegisterYubiKeyOTPDevice.PasswordFileReader.ReadLine | src/com/unboundid/ldap/sdk/unboundidds/RegisterYubiKeyOTPDevice.java:422 | yields the file's first line or the read error, and counts the read |
| RegisterYubiKeyOTPDevice.PasswordFileReader.Close | src/com/unboundid/ldap/sdk/unboundidds/RegisterYubiKeyOTPDevice.java:434-444 | marks the reader closed |
| RegisterYubiKeyOTPDevice.Terminal.PrintPasswordPrompt | src/com/unboundid/ldap/sdk/unboundidds/RegisterYubiKeyOTPDevice.java:451 | records one prompt naming the authentication ID |
| RegisterYubiKeyOTPDevice.Terminal.ReadPassword | src/com/unboundid/ldap/sdk/unboundidds/RegisterYubiKeyOTPDevice.java:452 | yields the typed password or the failure, and counts the read |
| RegisterYubiKeyOTPDevice.RegisterYubiKeyOTPDevice.DoToolProcessing | src/com/unboundid/ldap/sdk/unboundidds/RegisterYubiKeyOTPDevice.java:387-545 | the code and message are those of `Dispatch`; an opened connection ends closed, with exactly the dispatched request, if any, added to what it sent; the password file is read once and closed iff connected and chosen as the source; the prompt is printed (naming the authentication ID) and read once iff connected and chosen as the source |
| RegisterYubiKeyOTPDevice.RegisterYubiKeyOTPDevice.ProcessOnConnection | src/com/unboundid/ldap/sdk/unboundidds/RegisterYubiKeyOTPDevice.java:404-539 | the try block: the same code, message and effects as `Dispatch` on an open connection, which it leaves open for the finally clause |
| RegisterYubiKeyOTPDevice.RegisterYubiKeyOTPDevice.ReadStaticPassword | src/com/unboundid/ldap/sdk/unboundidds/RegisterYubiKeyOTPDevice.java:410-466 | the password obtained is exactly `StaticPassword` of the invocation, the file and the terminal; the file is read once and closed iff it is the chosen source; the prompt naming the authentication ID is printed and the password read once iff the prompt is the chosen source |
| RegisterYubiKeyOTPDevice.RegisterYubiKeyOTPDevice.SendRequest | src/com/unboundid/ldap/sdk/unboundidds/RegisterYubiKeyOTPDevice.java:470-538 | exactly the built register or deregister request is sent, and the code and message are those `Report` gives for the operation's result, thrown or returned |
| NameVariants.Variants | tests/unit/src/com/unboundid/ldap/sdk/unboundidds/extensions/SetNotificationDestinationChangeTypeTestCase.java:126-150 | one base name contributes at most 12 spellings |
| NameVariants.VariantsCrossProduct | tests/unit/src/com/unboundid/ldap/sdk/unboundidds/extensions/SetNotificationDestinationChangeTypeTestCase.java:124-150 | the spellings of a name are exactly the 12 case × separator forms of it: every form is included and nothing else is |
| NameVariants.SpellingKey | tests/unit/src/com/unboundid/ldap/sdk/unboundidds/controls/TransactionSettingsBackendLockBehaviorTestCase.java:113-141 | no case × separator form changes a non-separator character except in its case: upper-cased with separators removed, every form equals the name |
| NameVariants.VariantKey | tests/unit/src/com/unboundid/ldap/sdk/unboundidds/controls/TransactionSettingsBackendLockBehaviorTestCase.java:113-141 | every spelling in `getNames(name)` agrees with `name` up to case and separators |
| NameVariants.VariantLength | tests/unit/src/com/unboundid/ldap/sdk/unboundidds/controls/TransactionSettingsBackendLockBehaviorTestCase.java:113-141 | no spelling is longer than its name |
| NameVariants.StripSeparators | tests/unit/src/com/unboundid/ldap/sdk/unboundidds/extensions/SetNotificationDestinationChangeTypeTestCase.java:140-147 | the character-by-character loop yields the name with every `-` and `_` removed |
| NameVariants.GetNames | tests/unit/src/com/unboundid/ldap/sdk/unboundidds/extensions/SetNotificationDestinationChangeTypeTestCase.java:121-154 | the filled set is the union of the spellings of every base name; a string is in it iff it is a spelling of some base name; it has at most 12 names per base name |
| NameVariants.NamesOfSize | tests/unit/src/com/unboundid/ldap/sdk/unboundidds/controls/TransactionSettingsBackendLockBehaviorTestCase.java:111-144 | the generated set has at most 12 names per base name |
| ExtensibleEnum.ValueOfCode | tests/unit/src/com/unboundid/ldap/sdk/unboundidds/controls/TransactionSettingsBackendLockBehaviorTestCase.java:55-60 | the result is a constant with the requested code, and it is null iff no constant has that code (so `valueOf(12345)` is null for a table without that code) |
| ExtensibleEnum.ValueOfName | tests/unit/src/com/unboundid/ldap/sdk/unboundidds/controls/TransactionSettingsBackendLockBehaviorTestCase.java:62-70 | the result is a constant with exactly that name; it throws, naming the string, iff no constant has that name |
| ExtensibleEnum.ForName | tests/unit/src/com/unboundid/ldap/sdk/unboundidds/controls/TransactionSettingsBackendLockBehaviorTestCase.java:85-97 | the result is a constant of which the string is a flexible spelling, and it is null iff the string is no constant's spelling |
| ExtensibleEnum.ValueOfCodeRoundTrip | tests/unit/src/com/unboundid/ldap/sdk/unboundidds/controls/TransactionSettingsBackendLockBehaviorTestCase.java:55-56 | with distinct codes, every constant is found again from its code |
| ExtensibleEnum.ValueOfNameRoundTrip | tests/unit/src/com/unboundid/ldap/sdk/unboundidds/controls/TransactionSettingsBackendLockBehaviorTestCase.java:50-54 | with distinct names, every constant is found again from its name by the strict lookup |
| ExtensibleEnum.DistinctKeysDistinctNames | tests/unit/src/com/unboundid/ldap/sdk/unboundidds/controls/TransactionSettingsBackendLockBehaviorTestCase.java:50-54 | names distinct up to case and separators are distinct names |
| ExtensibleEnum.ForNameRoundTrip | tests/unit/src/com/unboundid/ldap/sdk/unboundidds/controls/TransactionSettingsBackendLockBehaviorTestCase.java:85-94 | with names distinct up to case and separators, every generated spelling of a constant's name resolves to that constant |
| ExtensibleEnum.ForNameIff | tests/unit/src/com/unboundid/ldap/sdk/unboundidds/controls/TransactionSettingsBackendLockBehaviorTestCase.java:85-94 | `forName` returns a given constant iff the string is one of its spellings |
| ExtensibleEnum.ForNameRejects | tests/unit/src/com/unboundid/ldap/sdk/unboundidds/controls/TransactionSettingsBackendLockBehaviorTestCase.java:96-97 | a string that agrees with no constant's name up to case and separators is rejected |
| ExtensibleEnum.ForNameRejectsLonger | tests/unit/src/com/unboundid/ldap/sdk/unboundidds/controls/TransactionSettingsBackendLockBehaviorTestCase.java:96-97 | a string longer than every constant's name is rejected |
| SetNotificationDestinationChangeType.ValueOf | tests/unit/src/com/unboundid/ldap/sdk/unboundidds/extensions/SetNotificationDestinationChangeTypeTestCase.java:50-60 | the result has the requested code, and it is null iff the code is not 0, 1 or 2 |
| SetNotificationDestinationChangeType.ValueOfName | tests/unit/src/com/unboundid/ldap/sdk/unboundidds/extensions/SetNotificationDestinationChangeTypeTestCase.java:62-81 | the result has exactly that name, and it throws iff the string is not REPLACE, ADD or DELETE |
| SetNotificationDestinationChangeType.ForName | tests/unit/src/com/unboundid/ldap/sdk/unboundidds/extensions/SetNotificationDestinationChangeTypeTestCase.java:96-107 | the result is a constant of which the string is a spelling, and it is null iff it is no constant's spelling |
| SetNotificationDestinationChangeType.ValuesHaveDistinctKeys | tests/unit/src/com/unboundid/ldap/sdk/unboundidds/extensions/SetNotificationDestinationChangeTypeTestCase.java:96-104 | REPLACE, ADD and DELETE differ even up to case and separators |
| SetNotificationDestinationChangeType.Codes | tests/unit/src/com/unboundid/ldap/sdk/unboundidds/extensions/SetNotificationDestinationChangeTypeTestCase.java:50-60 | REPLACE is 0, ADD is 1 and DELETE is 2, and `valueOf` maps each code back to its constant |
| SetNotificationDestinationChangeType.RoundTrips | tests/unit/src/com/unboundid/ldap/sdk/unboundidds/extensions/SetNotificationDestinationChangeTypeTestCase.java:62-69 | every constant is found again from its code and from its name |
| SetNotificationDestinationChangeType.UnknownCode | tests/unit/src/com/unboundid/ldap/sdk/unboundidds/extensions/SetNotificationDestinationChangeTypeTestCase.java:71 | `valueOf(3)` is null |
| SetNotificationDestinationChangeType.UndefinedNameThrows | tests/unit/src/com/unboundid/ldap/sdk/unboundidds/extensions/SetNotificationDestinationChangeTypeTestCase.java:73-81 | the strict `valueOf("undefined")` throws `IllegalArgumentException` |
| SetNotificationDestinationChangeType.ForNameAllSpellings | tests/unit/src/com/unboundid/ldap/sdk/unboundidds/extensions/SetNotificationDestinationChangeTypeTestCase.java:96-104 | every spelling `getNames` makes from a constant's name resolves to that constant |
| SetNotificationDestinationChangeType.ForNameUndefined | tests/unit/src/com/unboundid/ldap/sdk/unboundidds/extensions/SetNotificationDestinationChangeTypeTestCase.java:106-107 | `forName("some undefined name")` is null |

## Left out

- LDAP transport is left out: `getConnection`, the extended operation's wire encoding and server behaviour, and what `close()` does internally. The connection is a scripted object with one fixed outcome.
- File and terminal I/O are left out: opening the file, `readLine` and `PasswordReader.readPassword`. Each is a scripted object with a fixed outcome. Exceptions from closing the reader are swallowed by the tool, so they are not modelled.
- An empty password file is left out. There `readLine` returns null, and `StaticUtils.getBytes(null)` is not part of this model. The file's first line is always a string or a read error.
- Java strings are UTF-16 and Dafny characters are Unicode scalar values, so `GetBytes` encodes scalar values. Unpaired surrogates are left out.
- `runTool`, which parses the tokens, checks the argument sets and calls the two tool hooks in order, is not part of this model. `DoToolProcessing` requires the extended validation to have passed. `AcceptedInvocations` states what the argument sets and the extended validation together admit.
- Argument-parser plumbing is left out: token parsing, long-identifier aliases (`de-register`, `auth-id`, …), sensitivity, descriptions and placeholders, `FileArgument` existence checks, identifier-conflict exceptions, properties files, interactive mode and the capability overrides of the tool. `Violations` reports every violated set and does not model the order in which the parser reports a first one.
- Output rendering is left out: message text, localisation, `wrapOut`/`wrapErr` and debug logging. A message is a kind tag with the values it names.
- The tool name, description, version and `getExampleUsages` are fixed data and are left out.
- `main(String[], OutputStream, OutputStream)` only constructs the tool and calls `runTool`, so it is left out with `runTool`. `ExitCall` models what `main(String...)` does with the result code.
- `SUCCESS` is 0 and `LOCAL_ERROR` is 82, the SDK's values. The `ResultCode` class is not part of this model.
- The SDK's enum classes are not part of this model. `SetNotificationDestinationChangeType` uses the three codes the tests fix. The members of `TransactionSettingsBackendLockBehavior` are not modelled. Its test's properties are the generic `ExtensibleEnum` lemmas, which hold for any constant table whose codes are distinct and whose names are distinct up to case and separators.
- ExtensibleEnum.ForName: it accepts exactly the `getNames` spellings of a constant's name, which is how the tests pin `forName` down. Any further spellings the real `forName` may accept (for example other mixed-case forms) are left out.
- Case mapping (`toLowerCase`/`toUpperCase`) is restricted to ASCII letters. Full Unicode case mapping is left out.
- The operating system's truncation of the `System.exit` status (on POSIX only its low 8 bits survive) is not modelled: `ExitStatus` is the value passed to `System.exit`.
