/**
 * The domain-command parser (lambda/src/shared/commandParser.js): the command
 * a request asks for travels as a `domain-model=<command>` parameter of its
 * content-type header, and the only supported command is `create-user`.
 */
module CommandParsing {
  import opened Wrappers
  import opened Strings

  /** `supportedCommands.signUp`, which is also `DomainCommands.createUser`. */
  const CreateUserCommand: string := "create-user"

  /** The text a header parameter must contain to be the domain-model parameter. */
  const Marker: string := "domain-model="

  /** The two header keys that are consulted, in the order they are tried. */
  const LowerCaseKey: string := "content-type"
  const CanonicalKey: string := "Content-Type"

  /** Request headers; None stands for a missing (`undefined` or `null`) headers object. */
  type Headers = Option<map<string, string>>

  /** The three strings the parser can throw. */
  datatype ParseError =
    | ParameterNotFound
    | CommandNotSpecified
    | NotSupported(token: string)
  {
    /**
     * The thrown text: a fixed sentence for the first two errors; for an
     * unsupported command, the token embedded verbatim after "The ".
     */
    function Message(): (r: string)
      ensures !NotSupported? ==> |r| == 65
      ensures NotSupported? ==> |r| == |token| + 31 && OccursAt(r, token, 4)
    {
      match this
      case ParameterNotFound => "Unable to find the domain-model parameter on Content-Type header."
      case CommandNotSpecified => "Command not specified on the domain-model Content-Type parameter."
      case NotSupported(token) =>
        var text := "The " + token + " provided is not supported.";
        assert text[4..4 + |token|] == token;
        text
    }
  }

  // ---------------------------------------------------------------------------
  // getDomainModelParameter
  // ---------------------------------------------------------------------------

  /**
   * The content-type header value: the lower-case key when its value is
   * truthy (a non-empty string), otherwise whatever the canonical key holds.
   * None is `undefined`, on which `.split` throws.
   */
  function ContentTypeHeader(h: map<string, string>): (r: Option<string>)
    ensures r.Some? ==> r.value in h.Values
  {
    if LowerCaseKey in h && h[LowerCaseKey] != "" then Some(h[LowerCaseKey])
    else if CanonicalKey in h then Some(h[CanonicalKey])
    else None
  }

  /** The header parameters that contain the marker, in header order (the `filter`). */
  function DomainModelSegments(parts: seq<string>): (r: seq<string>)
    ensures |r| <= |parts|
    ensures forall k :: 0 <= k < |r| ==> Contains(r[k], Marker) && r[k] in parts
  {
    if |parts| == 0 then []
    else
      var rest := DomainModelSegments(parts[1..]);
      if Contains(parts[0], Marker) then [parts[0]] + rest else rest
  }

  /** No parameter contains the marker. */
  predicate NoneMarked(parts: seq<string>)
  {
    forall k :: 0 <= k < |parts| ==> !Contains(parts[k], Marker)
  }

  /** `parts[i]` is the first parameter that contains the marker. */
  predicate FirstMarkedAt(parts: seq<string>, i: nat)
  {
    && i < |parts|
    && Contains(parts[i], Marker)
    && forall j :: 0 <= j < i ==> !Contains(parts[j], Marker)
  }

  /**
   * `getDomainModelParameter` as `validateCommand` sees it: every way it can
   * fail (no headers, no content-type header, no parameter with the marker)
   * is caught there and ends in the same error, so failure is just None.
   */
  function DomainModelParameter(headers: Headers): (r: Option<string>)
    ensures r.None? <==>
      || headers.None?
      || ContentTypeHeader(headers.value).None?
      || NoneMarked(Split(ContentTypeHeader(headers.value).value, ';'))
    ensures headers.Some? && ContentTypeHeader(headers.value).Some? ==>
      var parts := Split(ContentTypeHeader(headers.value).value, ';');
      forall i: nat :: FirstMarkedAt(parts, i) ==> r == Some(parts[i])
  {
    if headers.None? then None
    else match ContentTypeHeader(headers.value)
      case None => None
      case Some(header) =>
        var parts := Split(header, ';');
        NoDomainModelSegment(parts);
        FirstDomainModelSegments(parts);
        var found := DomainModelSegments(parts);
        if |found| == 0 then None else Some(found[0])
  }

  // ---------------------------------------------------------------------------
  // validateCommand
  // ---------------------------------------------------------------------------

  /** The checks `validateCommand` makes on the domain-model parameter it found. */
  function ParseSegment(parameter: string): (r: Result<string, ParseError>)
    ensures r.Success? ==> r.value == CreateUserCommand
    ensures r.Failure? ==> r.error != ParameterNotFound
  {
    var keyValue := Split(parameter, '=');
    if |keyValue| != 2 then Failure(CommandNotSpecified)
    else if keyValue[1] != CreateUserCommand then Failure(NotSupported(keyValue[1]))
    else Success(keyValue[1])
  }

  /** What `new CommandParser(event)` leaves in `command`, or what it throws. */
  function ParseCommand(headers: Headers): (r: Result<string, ParseError>)
    ensures r.Success? ==> r.value == CreateUserCommand
  {
    match DomainModelParameter(headers)
    case None => Failure(ParameterNotFound)
    case Some(parameter) => ParseSegment(parameter)
  }

  /** The parser object: it keeps the headers and, on success, the command. */
  class CommandParser {
    const supportedSignUp: string
    const headers: Headers
    var command: Option<string>

    /** Stores the fields; `validateCommand` is run by `Create`. */
    constructor(headers: Headers)
      ensures this.headers == headers
      ensures supportedSignUp == CreateUserCommand
      ensures command.None?
    {
      this.supportedSignUp := CreateUserCommand;
      this.headers := headers;
      this.command := None;
    }

    /** `validateCommand`: sets `command` on success, throws and leaves it alone otherwise. */
    method ValidateCommand() returns (r: Result<string, ParseError>)
      requires supportedSignUp == CreateUserCommand
      modifies this`command
      ensures r == ParseCommand(headers)
      ensures command == if r.Success? then Some(r.value) else old(command)
    {
      var parameter := DomainModelParameter(headers);
      if parameter.None? {
        return Failure(ParameterNotFound);
      }
      var keyValue := Split(parameter.value, '=');
      if |keyValue| != 2 {
        return Failure(CommandNotSpecified);
      }
      var token := keyValue[1];
      if token != supportedSignUp {
        return Failure(NotSupported(token));
      }
      command := Some(token);
      return Success(token);
    }
  }

  /**
   * `new CommandParser(event)`: either a fresh parser whose `command` is set,
   * or the thrown error and no parser at all.
   */
  method Create(headers: Headers) returns (r: Result<CommandParser, ParseError>)
    ensures r.Failure? ==> ParseCommand(headers) == Failure(r.error)
    ensures r.Success? ==>
      && fresh(r.value)
      && r.value.headers == headers
      && ParseCommand(headers).Success?
      && r.value.command == Some(ParseCommand(headers).value)
  {
    var parser := new CommandParser(headers);
    var outcome := parser.ValidateCommand();
    if outcome.Failure? {
      return Failure(outcome.error);
    }
    return Success(parser);
  }

  // ---------------------------------------------------------------------------
  // Properties
  // ---------------------------------------------------------------------------

  /** Only the two spellings `content-type` and `Content-Type` are ever looked at. */
  lemma ContentTypeHeaderIgnoresOtherKeys(h: map<string, string>, k: string, v: string)
    requires k != LowerCaseKey && k != CanonicalKey
    ensures ContentTypeHeader(h[k := v]) == ContentTypeHeader(h)
  {
  }

  /** A non-empty lower-case header wins over the canonical one; otherwise the canonical one decides. */
  lemma ContentTypeHeaderPreference(h: map<string, string>)
    ensures LowerCaseKey in h && h[LowerCaseKey] != "" ==> ContentTypeHeader(h) == Some(h[LowerCaseKey])
    ensures !(LowerCaseKey in h && h[LowerCaseKey] != "") ==>
      ContentTypeHeader(h) == ContentTypeHeader(map k | k in h && k == CanonicalKey :: h[k])
  {
  }

  /** The filter is empty exactly when no parameter contains the marker. */
  lemma {:induction false} NoDomainModelSegment(parts: seq<string>)
    ensures |DomainModelSegments(parts)| == 0 <==> NoneMarked(parts)
  {
    if |parts| > 0 {
      NoDomainModelSegment(parts[1..]);
      assert forall k :: 1 <= k < |parts| ==> parts[k] == parts[1..][k - 1];
    }
  }

  /** The parameter picked is the first one, in header order, that contains the marker. */
  lemma {:induction false} FirstDomainModelSegment(parts: seq<string>, i: nat)
    requires FirstMarkedAt(parts, i)
    ensures |DomainModelSegments(parts)| > 0 && DomainModelSegments(parts)[0] == parts[i]
  {
    if i > 0 {
      assert FirstMarkedAt(parts[1..], i - 1);
      FirstDomainModelSegment(parts[1..], i - 1);
    }
  }

  /** FirstDomainModelSegment, for every index at once. */
  lemma FirstDomainModelSegments(parts: seq<string>)
    ensures forall i: nat :: FirstMarkedAt(parts, i) ==>
      |DomainModelSegments(parts)| > 0 && DomainModelSegments(parts)[0] == parts[i]
  {
    forall i: nat | FirstMarkedAt(parts, i)
      ensures |DomainModelSegments(parts)| > 0 && DomainModelSegments(parts)[0] == parts[i]
    {
      FirstDomainModelSegment(parts, i);
    }
  }

  /** A string containing a character of `sub` must contain `sub`'s characters. */
  lemma ContainsHasChar(s: string, sub: string, c: char)
    requires Contains(s, sub) && c in sub
    ensures c in s
  {
    var i: nat :| OccursAt(s, sub, i);
    var j :| 0 <= j < |sub| && sub[j] == c;
    assert s[i..i + |sub|][j] == s[i + j];
  }

  /** `c in s` means `s` counts at least one `c`. */
  lemma {:induction false} CountCharPositive(s: string, c: char)
    requires c in s
    ensures CountChar(s, c) >= 1
  {
    if s[0] != c {
      assert c in s[1..];
      CountCharPositive(s[1..], c);
    }
  }

  /** The domain-model parameter always splits on `=` into at least two parts. */
  lemma MarkedSegmentHasKeyAndValue(parameter: string)
    requires Contains(parameter, Marker)
    ensures |Split(parameter, '=')| >= 2
  {
    ContainsHasChar(parameter, Marker, '=');
    CountCharPositive(parameter, '=');
    SplitLength(parameter, '=');
  }

  /** `key=token` with one `=` is accepted exactly when `token` is `create-user`, verbatim. */
  lemma ParseSegmentKeyValue(key: string, token: string)
    requires '=' !in key && '=' !in token
    ensures ParseSegment(key + "=" + token)
         == if token == CreateUserCommand then Success(token) else Failure(NotSupported(token))
  {
    assert key + "=" + token == Join([key, token], '=');
    SplitJoin([key, token], '=');
  }

  /** A parameter is accepted exactly when it is some `=`-free key, then `=create-user`. */
  lemma ParseSegmentSucceeds(parameter: string)
    ensures ParseSegment(parameter).Success?
        <==> exists key :: '=' !in key && parameter == key + "=" + CreateUserCommand
  {
    var keyValue := Split(parameter, '=');
    if ParseSegment(parameter).Success? {
      JoinSplit(parameter, '=');
      assert Join(keyValue, '=') == keyValue[0] + "=" + keyValue[1];
      assert parameter == keyValue[0] + "=" + CreateUserCommand;
    }
    if exists key :: '=' !in key && parameter == key + "=" + CreateUserCommand {
      var key :| '=' !in key && parameter == key + "=" + CreateUserCommand;
      ParseSegmentKeyValue(key, CreateUserCommand);
    }
  }

  /** "Command not specified" is thrown exactly when the parameter has more than one `=` (or none). */
  lemma ParseSegmentCommandNotSpecified(parameter: string)
    ensures ParseSegment(parameter) == Failure(CommandNotSpecified) <==> CountChar(parameter, '=') != 1
  {
    SplitLength(parameter, '=');
  }

  /**
   * "Unable to find the domain-model parameter" is thrown exactly when the
   * headers are missing, neither content-type key yields a header, or no
   * `;`-parameter of the header contains `domain-model=`.
   */
  lemma ParseCommandParameterNotFound(headers: Headers)
    ensures ParseCommand(headers) == Failure(ParameterNotFound)
        <==> || headers.None?
             || ContentTypeHeader(headers.value).None?
             || NoneMarked(Split(ContentTypeHeader(headers.value).value, ';'))
  {
    if headers.Some? && ContentTypeHeader(headers.value).Some? {
      var parts := Split(ContentTypeHeader(headers.value).value, ';');
      NoDomainModelSegment(parts);
      var found := DomainModelSegments(parts);
      if |found| > 0 {
        assert !NoneMarked(parts);
        assert ParseCommand(headers) == ParseSegment(found[0]);
      }
    }
  }

  /** With several marked parameters, only the first one in header order decides. */
  lemma ParseCommandUsesFirstSegment(h: map<string, string>, header: string, i: nat)
    requires ContentTypeHeader(h) == Some(header)
    requires FirstMarkedAt(Split(header, ';'), i)
    ensures ParseCommand(Some(h)) == ParseSegment(Split(header, ';')[i])
  {
    FirstDomainModelSegment(Split(header, ';'), i);
  }

  /**
   * Parsing succeeds exactly when the first marked parameter is an `=`-free
   * key followed by `=create-user`; the key is not checked beyond containing
   * the marker, and then `command` is `create-user`.
   */
  lemma ParseCommandSucceeds(h: map<string, string>, header: string, i: nat)
    requires ContentTypeHeader(h) == Some(header)
    requires FirstMarkedAt(Split(header, ';'), i)
    ensures ParseCommand(Some(h)).Success?
        <==> exists key :: '=' !in key && Split(header, ';')[i] == key + "=" + CreateUserCommand
    ensures ParseCommand(Some(h)).Success? ==> ParseCommand(Some(h)).value == CreateUserCommand
  {
    ParseCommandUsesFirstSegment(h, header, i);
    ParseSegmentSucceeds(Split(header, ';')[i]);
  }

  // ---------------------------------------------------------------------------
  // Worked examples
  // ---------------------------------------------------------------------------

  /** `=` does not occur in a string, so the marker cannot either. */
  lemma NotMarked(s: string)
    requires '=' !in s
    ensures !Contains(s, Marker)
  {
    if Contains(s, Marker) {
      assert Marker[12] == '=';
      ContainsHasChar(s, Marker, '=');
    }
  }

  /**
   * A header of two parameters, the first without any `=`: the second one
   * decides.
   */
  lemma ParseCommandSecondParameter(h: map<string, string>, first: string, second: string)
    requires ContentTypeHeader(h) == Some(first + ";" + second)
    requires ';' !in first && ';' !in second && '=' !in first
    requires Contains(second, Marker)
    ensures ParseCommand(Some(h)) == ParseSegment(second)
  {
    var parts := [first, second];
    assert parts[1..] == [second];
    assert Join(parts, ';') == first + ";" + second;
    SplitJoin(parts, ';');
    NotMarked(first);
    assert FirstMarkedAt(parts, 1);
    FirstDomainModelSegment(parts, 1);
  }

  /** A header that is a single parameter containing the marker: that parameter decides. */
  lemma ParseCommandOnlyParameter(h: map<string, string>, only: string)
    requires ContentTypeHeader(h) == Some(only)
    requires ';' !in only && Contains(only, Marker)
    ensures ParseCommand(Some(h)) == ParseSegment(only)
  {
    SplitNoSeparator(only, ';');
    assert FirstMarkedAt([only], 0);
    FirstDomainModelSegment([only], 0);
  }

  /** Any `=`- and `;`-free text, then `domain-model=create-user`, is an accepted parameter. */
  lemma MarkedCreateUserParameter(pre: string)
    requires '=' !in pre && ';' !in pre
    ensures ';' !in pre + Marker + CreateUserCommand
    ensures Contains(pre + Marker + CreateUserCommand, Marker)
    ensures ParseSegment(pre + Marker + CreateUserCommand) == Success(CreateUserCommand)
  {
    var tail := Marker + CreateUserCommand;
    assert ';' !in tail by {
      assert forall k :: 0 <= k < |tail| ==> tail[k] != ';';
    }
    assert pre + Marker + CreateUserCommand == pre + tail;
    ContainsInContext(pre, Marker, CreateUserCommand);
    assert ParseSegment(pre + Marker + CreateUserCommand) == Success(CreateUserCommand) by {
      var key := pre + "domain-model";
      assert pre + Marker + CreateUserCommand == key + "=" + CreateUserCommand;
      assert '=' !in CreateUserCommand by {
        assert forall k :: 0 <= k < |CreateUserCommand| ==> CreateUserCommand[k] != '=';
      }
      ParseSegmentKeyValue(key, CreateUserCommand);
    }
  }

  /**
   * `application/json; domain-model=create-user` under the lower-case key is
   * accepted, whatever the other headers are.
   */
  lemma ExampleLowerCaseHeaderAccepted(h: map<string, string>)
    requires LowerCaseKey in h && h[LowerCaseKey] == "application/json; " + Marker + CreateUserCommand
    ensures ParseCommand(Some(h)) == Success(CreateUserCommand)
  {
    var first, second := "application/json", " " + Marker + CreateUserCommand;
    assert ';' !in first && '=' !in first by {
      assert forall k :: 0 <= k < |first| ==> first[k] != ';' && first[k] != '=';
    }
    assert ContentTypeHeader(h) == Some(first + ";" + second) by {
      assert first + ";" + second == "application/json; " + Marker + CreateUserCommand;
    }
    MarkedCreateUserParameter(" ");
    ParseCommandSecondParameter(h, first, second);
  }

  /** A trailing space is not trimmed: `domain-model=create-user ` names the unsupported `create-user `. */
  lemma ExampleTrailingSpaceRejected()
    ensures ParseSegment("domain-model=create-user ") == Failure(NotSupported("create-user "))
  {
    assert "domain-model=create-user " == "domain-model" + "=" + "create-user ";
    ParseSegmentKeyValue("domain-model", "create-user ");
  }

  /** `domain-model=a=b` splits into three parts, so no command is specified. */
  lemma ExampleExtraEqualsRejected()
    ensures ParseSegment("domain-model=a=b") == Failure(CommandNotSpecified)
  {
    var parts := ["domain-model", "a", "b"];
    assert Join(parts, '=') == "domain-model=a=b";
    SplitJoin(parts, '=');
  }

  /**
   * Only the part after `=` is checked: ` xdomain-model=create-user` under the
   * canonical key is accepted when there is no lower-case header.
   */
  lemma ExampleUncheckedKeyAccepted(h: map<string, string>)
    requires LowerCaseKey !in h && CanonicalKey in h && h[CanonicalKey] == " xdomain-model=create-user"
    ensures ParseCommand(Some(h)) == Success(CreateUserCommand)
  {
    var only := " x" + Marker + CreateUserCommand;
    assert ContentTypeHeader(h) == Some(only) by {
      assert only == " xdomain-model=create-user";
    }
    MarkedCreateUserParameter(" x");
    ParseCommandOnlyParameter(h, only);
  }

  /** A `Content-type` key (neither spelling) is not found. */
  lemma ExampleOtherCasingNotFound()
    ensures ParseCommand(Some(map["Content-type" := "domain-model=create-user"])) == Failure(ParameterNotFound)
  {
    var h := map["Content-type" := "domain-model=create-user"];
    assert LowerCaseKey !in h by {
      assert LowerCaseKey[0] != "Content-type"[0];
    }
    assert CanonicalKey !in h by {
      assert CanonicalKey[8] != "Content-type"[8];
    }
    ParseCommandParameterNotFound(Some(h));
  }
}
