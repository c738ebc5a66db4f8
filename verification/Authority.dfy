/** External-authority grants, their canonical tokens and manifests
    (src/authority.rs). */
module Authority {
  import opened Options
  import opened Text
  datatype Grant =
    | NetTcpOut(host: string, port: nat)
    | FsRead(path: string)
    | FsWrite(path: string)
    | EnvRead(name: string)
    | SecretRead(name: string)
    | ProcessRun(command: string)
    | Other(namespace: string, operation: string, argument: Option<string>)

  datatype Reason =
    | EmptyToken | UnmatchedClose | Unclosed | Nested | NoSeparator | EmptyPart | NoArgument | EmptyArgument
    | NoPort | EmptyHost | BadPort | ZeroPort

  datatype Result<T> = Ok(value: T) | Err(reason: Reason)

  /** A token taken apart. */
  datatype Parts = Parts(namespace: string, operation: string, argument: Option<string>)

  // ----- searching -----

  function Find(s: string, c: char): (r: Option<nat>)
    ensures r.Some? ==> r.value < |s| && s[r.value] == c && c !in s[..r.value]
    ensures r.None? ==> c !in s
  {
    if s == [] then None
    else if s[0] == c then Some(0)
    else
      var r := Find(s[1..], c);
      if r.None? then None
      else
        assert s[..r.value + 1] == [s[0]] + s[1..][..r.value];
        Some(r.value + 1)
  }

  function RFind(s: string, c: char): (r: Option<nat>)
    ensures r.Some? ==> r.value < |s| && s[r.value] == c && c !in s[r.value + 1..]
    ensures r.None? ==> c !in s
  {
    if s == [] then None
    else if s[|s| - 1] == c then Some(|s| - 1)
    else
      var r := RFind(s[..|s| - 1], c);
      if r.None? then assert s == s[..|s| - 1] + [s[|s| - 1]]; None
      else
        assert s[r.value + 1..] == s[..|s| - 1][r.value + 1..] + [s[|s| - 1]];
        r
  }

  /** The first "::". */
  function FindSeparator(s: string): (r: Option<nat>)
    ensures r.Some? ==> r.value + 1 < |s| && s[r.value] == ':' && s[r.value + 1] == ':'
    ensures r.Some? ==> forall i :: 0 <= i < r.value ==> !(s[i] == ':' && s[i + 1] == ':')
  {
    if |s| < 2 then None
    else if s[0] == ':' && s[1] == ':' then Some(0)
    else
      var r := FindSeparator(s[1..]);
      if r.None? then None
      else
        assert forall i :: 0 < i <= r.value ==> s[i] == s[1..][i - 1] && s[i + 1] == s[1..][i];
        Some(r.value + 1)
  }

  // ----- ports -----

  /** Unsigned 16-bit decimal: an optional plus sign, digits, no overflow. */
  function ParsePort(s: string): Option<nat> {
    var n := ParseNat(if s != [] && s[0] == '+' then s[1..] else s);
    if n.Some? && n.value <= 0xFFFF then n else None
  }

  // ----- printing -----

  function Render(p: Parts): string {
    p.namespace + [':', ':'] + p.operation + (if p.argument.Some? then ['('] + p.argument.value + [')'] else [])
  }

  function PartsOf(g: Grant): Parts {
    match g
    case NetTcpOut(host, port) => Parts("Net", "TcpOut", Some(host + [':'] + FormatNat(port)))
    case FsRead(path) => Parts("Fs", "Read", Some(path))
    case FsWrite(path) => Parts("Fs", "Write", Some(path))
    case EnvRead(name) => Parts("Env", "Read", Some(name))
    case SecretRead(name) => Parts("Secret", "Read", Some(name))
    case ProcessRun(command) => Parts("Process", "Run", Some(command))
    case Other(namespace, operation, argument) => Parts(namespace, operation, argument)
  }

  function Print(g: Grant): string { Render(PartsOf(g)) }

  // ----- parsing -----

  function SplitToken(token: string): Result<(string, Option<string>)> {
    match Find(token, '(')
    case None => if ')' in token then Err(UnmatchedClose) else Ok((token, None))
    case Some(open) =>
      if token[|token| - 1] != ')' then Err(Unclosed)
      else
        var argument := token[open + 1..|token| - 1];
        if '(' in argument || ')' in argument then Err(Nested) else Ok((token[..open], Some(argument)))
  }

  function Split(token: string): Result<Parts> {
    match SplitToken(token)
    case Err(e) => Err(e)
    case Ok((head, argument)) =>
      match FindSeparator(head)
      case None => Err(NoSeparator)
      case Some(i) =>
        if i == 0 || i + 2 == |head| then Err(EmptyPart) else Ok(Parts(head[..i], head[i + 2..], argument))
  }

  function RequireArgument(p: Parts): Result<string> {
    if p.argument.None? then Err(NoArgument)
    else if p.argument.value == [] then Err(EmptyArgument)
    else Ok(p.argument.value)
  }

  function BuildTcpOut(p: Parts): Result<Grant> {
    if p.argument.None? then Err(NoArgument)
    else
      var endpoint := p.argument.value;
      match RFind(endpoint, ':')
      case None => Err(NoPort)
      case Some(i) =>
        if i == 0 then Err(EmptyHost)
        else
          match ParsePort(endpoint[i + 1..])
          case None => Err(BadPort)
          case Some(port) => if port == 0 then Err(ZeroPort) else Ok(NetTcpOut(endpoint[..i], port))
  }

  datatype Form = TcpForm | FsReadForm | FsWriteForm | EnvForm | SecretForm | ProcessForm | OtherForm

  function FormOf(namespace: string, operation: string): Form {
    if namespace == "Net" && operation == "TcpOut" then TcpForm
    else if namespace == "Fs" && operation == "Read" then FsReadForm
    else if namespace == "Fs" && operation == "Write" then FsWriteForm
    else if namespace == "Env" && operation == "Read" then EnvForm
    else if namespace == "Secret" && operation == "Read" then SecretForm
    else if namespace == "Process" && operation == "Run" then ProcessForm
    else OtherForm
  }

  function Named(form: Form, argument: string): Grant {
    match form
    case FsReadForm => FsRead(argument)
    case FsWriteForm => FsWrite(argument)
    case EnvForm => EnvRead(argument)
    case SecretForm => SecretRead(argument)
    case _ => ProcessRun(argument)
  }

  function Build(p: Parts): Result<Grant> {
    var form := FormOf(p.namespace, p.operation);
    if form == OtherForm then Ok(Other(p.namespace, p.operation, p.argument))
    else if form == TcpForm then BuildTcpOut(p)
    else match RequireArgument(p) case Err(e) => Err(e) case Ok(argument) => Ok(Named(form, argument))
  }

  function Parse(text: string): Result<Grant> {
    var token := Trim(text);
    if token == [] then Err(EmptyToken)
    else match Split(token) case Err(e) => Err(e) case Ok(p) => Build(p)
  }

  // ----- which grants have a token of their own -----

  predicate ParenFree(s: string) { '(' !in s && ')' !in s }

  predicate CleanHead(namespace: string, operation: string) {
    && namespace != [] && operation != []
    && (forall i :: 0 <= i < |namespace| - 1 ==> !(namespace[i] == ':' && namespace[i + 1] == ':'))
    && namespace[|namespace| - 1] != ':'
    && !IsSpace(namespace[0])
    && '(' !in namespace && '(' !in operation
  }

  /** A first "::" between the two, with nothing trimmed off at either end. */
  predicate CleanParts(p: Parts) {
    && CleanHead(p.namespace, p.operation)
    && (if p.argument.Some? then ParenFree(p.argument.value)
        else ')' !in p.namespace && ')' !in p.operation && !IsSpace(p.operation[|p.operation| - 1]))
  }

  predicate Printable(g: Grant) {
    match g
    case NetTcpOut(host, port) => host != [] && ParenFree(host) && 1 <= port <= 0xFFFF
    case FsRead(path) => path != [] && ParenFree(path)
    case FsWrite(path) => path != [] && ParenFree(path)
    case EnvRead(name) => name != [] && ParenFree(name)
    case SecretRead(name) => name != [] && ParenFree(name)
    case ProcessRun(command) => command != [] && ParenFree(command)
    case Other(namespace, operation, argument) =>
      CleanParts(Parts(namespace, operation, argument)) && FormOf(namespace, operation) == OtherForm
  }

  // ----- parsing what was printed -----

  lemma {:induction false} FindAt(a: string, c: char, b: string)
    requires c !in a
    ensures Find(a + [c] + b, c) == Some(|a|)
  {
    var s := a + [c] + b;
    if a == [] {
      assert s[0] == c;
    } else {
      assert s[0] == a[0] && s[1..] == a[1..] + [c] + b;
      FindAt(a[1..], c, b);
    }
  }

  lemma {:induction false} RFindAt(a: string, c: char, b: string)
    requires c !in b
    ensures RFind(a + [c] + b, c) == Some(|a|)
    decreases |b|
  {
    var s := a + [c] + b;
    if b == [] {
      assert s[|s| - 1] == c;
    } else {
      var front := b[..|b| - 1];
      assert s[|s| - 1] == b[|b| - 1] && s[..|s| - 1] == a + [c] + front;
      RFindAt(a, c, front);
    }
  }

  lemma {:induction false} SeparatorAt(a: string, b: string)
    requires a != [] && a[|a| - 1] != ':'
    requires forall i :: 0 <= i < |a| - 1 ==> !(a[i] == ':' && a[i + 1] == ':')
    ensures FindSeparator(a + [':', ':'] + b) == Some(|a|)
  {
    var s := a + [':', ':'] + b;
    if |a| == 1 {
      assert s[0] == a[0] && s[1..] == [':', ':'] + b;
    } else {
      var rest := a[1..];
      assert s[0] == a[0] && s[1] == a[1] && s[1..] == rest + [':', ':'] + b;
      assert forall i :: 0 <= i < |rest| ==> rest[i] == a[i + 1];
      SeparatorAt(rest, b);
    }
  }

  lemma {:induction false} SplitRendered(p: Parts)
    requires CleanParts(p)
    ensures Split(Render(p)) == Ok(p)
  {
    hide Find, FindSeparator, IsSpace;
    var head := p.namespace + [':', ':'] + p.operation;
    SeparatorAt(p.namespace, p.operation);
    assert head[..|p.namespace|] == p.namespace && head[|p.namespace| + 2..] == p.operation;
    var token := Render(p);
    if p.argument.Some? {
      var a := p.argument.value;
      assert token == head + ['('] + (a + [')']);
      FindAt(head, '(', a + [')']);
      assert token[..|head|] == head && token[|head| + 1..|token| - 1] == a && token[|token| - 1] == ')';
    } else {
      assert token == head;
      assert '(' !in token && ')' !in token;
      FindNone(token);
    }
  }

  lemma {:induction false} FindNone(s: string)
    requires '(' !in s
    ensures Find(s, '(').None?
  {
    if s != [] { FindNone(s[1..]); }
  }

  lemma {:induction false} RenderedEnds(p: Parts)
    requires CleanParts(p)
    ensures var t := Render(p); t != [] && !IsSpace(t[0]) && !IsSpace(t[|t| - 1])
  {
    var t := Render(p);
    assert t[0] == p.namespace[0];
    if p.argument.Some? { assert t[|t| - 1] == ')'; } else { assert t[|t| - 1] == p.operation[|p.operation| - 1]; }
  }

  lemma {:induction false} BuiltinHeads()
    ensures CleanHead("Net", "TcpOut") && FormOf("Net", "TcpOut") == TcpForm
    ensures CleanHead("Fs", "Read") && FormOf("Fs", "Read") == FsReadForm
    ensures CleanHead("Fs", "Write") && FormOf("Fs", "Write") == FsWriteForm
    ensures CleanHead("Env", "Read") && FormOf("Env", "Read") == EnvForm
    ensures CleanHead("Secret", "Read") && FormOf("Secret", "Read") == SecretForm
    ensures CleanHead("Process", "Run") && FormOf("Process", "Run") == ProcessForm
  {
  }

  lemma {:induction false} PrintableParts(g: Grant)
    requires Printable(g)
    ensures CleanParts(PartsOf(g)) && Build(PartsOf(g)) == Ok(g)
  {
    hide CleanHead, FormOf, FormatNat, BuildTcpOut;
    BuiltinHeads();
    if g.NetTcpOut? { TcpOutParts(g.host, g.port); }
  }

  lemma {:induction false} TcpOutParts(host: string, port: nat)
    requires Printable(NetTcpOut(host, port))
    ensures ParenFree(host + [':'] + FormatNat(port))
    ensures forall ns, op :: BuildTcpOut(Parts(ns, op, Some(host + [':'] + FormatNat(port)))) == Ok(NetTcpOut(host, port))
  {
    hide FormatNat, ParseNat, RFind, CleanHead, FormOf;
    var digits := FormatNat(port);
    DecimalRoundTrip(port);
    assert ':' !in digits && '(' !in digits && ')' !in digits && digits[0] in digits;
    RFindAt(host, ':', digits);
    var endpoint := host + [':'] + digits;
    assert endpoint[..|host|] == host && endpoint[|host| + 1..] == digits;
    assert ParsePort(digits) == Some(port);
  }

  lemma {:induction false} PrintedParses(g: Grant)
    requires Printable(g)
    ensures Parse(Print(g)) == Ok(g)
  {
    hide Split, Build, Render, PartsOf, IsSpace, Trim, CleanParts, Printable;
    PrintableParts(g);
    RenderedEnds(PartsOf(g));
    TrimNothing(Print(g));
    SplitRendered(PartsOf(g));
  }

  // ----- printing what was parsed -----

  lemma {:induction false} SplitGivesParts(token: string)
    requires token != [] && !IsSpace(token[0]) && !IsSpace(token[|token| - 1]) && Split(token).Ok?
    ensures CleanParts(Split(token).value)
  {
    hide Find, FindSeparator, IsSpace;
    var split := SplitToken(token).value;
    var head := split.0;
    var i := FindSeparator(head).value;
    var p := Split(token).value;
    assert p.namespace == head[..i] && p.operation == head[i + 2..] && p.argument == split.1;
    assert p.namespace[0] == head[0] == token[0];
    assert p.operation[|p.operation| - 1] == head[|head| - 1];
    assert '(' !in head;
    assert forall k :: 0 <= k < i ==> p.namespace[k] == head[k];
    assert head[i] == ':' && p.namespace[i - 1] == head[i - 1];
    assert p.argument.None? ==> ')' !in head;
  }

  lemma {:induction false} BuildGivesPrintable(p: Parts)
    requires CleanParts(p) && Build(p).Ok?
    ensures Printable(Build(p).value)
  {
    hide IsSpace, RFind, ParseNat;
    if FormOf(p.namespace, p.operation) == TcpForm {
      var endpoint := p.argument.value;
      var i := RFind(endpoint, ':').value;
      assert forall c :: c in endpoint[..i] ==> c in endpoint;
    }
  }

  /** Every grant the parser can produce prints to a token that parses back
      to it. */
  lemma {:induction false} ParsePrintParse(text: string)
    requires Parse(text).Ok?
    ensures Printable(Parse(text).value) && Parse(Print(Parse(text).value)) == Parse(text)
  {
    hide Split, Build, Print, IsSpace, Trim, CleanParts, Printable;
    TrimEnds(text);
    SplitGivesParts(Trim(text));
    BuildGivesPrintable(Split(Trim(text)).value);
    PrintedParses(Parse(text).value);
  }

  /** A grant survives printing and parsing exactly when it is printable. */
  lemma {:induction false} RoundTripIffPrintable(g: Grant)
    ensures Parse(Print(g)) == Ok(g) <==> Printable(g)
  {
    hide Parse, Print, Printable;
    if Printable(g) { PrintedParses(g); }
    if Parse(Print(g)) == Ok(g) { ParsePrintParse(Print(g)); }
  }

  /** A grant that prints like a built-in one parses as the built-in one. */
  lemma {:induction false} LookalikeChangesMeaning(path: string)
    requires path != [] && ParenFree(path)
    ensures Parse(Print(Other("Fs", "Read", Some(path)))) == Ok(FsRead(path))
  {
    hide Parse;
    PrintedParses(FsRead(path));
  }

  // ----- manifests -----

  type Manifest = set<Grant>

  function Tokens(m: Manifest): set<string> { set g | g in m :: Print(g) }

  predicate AllParse(tokens: set<string>) { forall t :: t in tokens ==> Parse(t).Ok? }

  function ParsedSet(tokens: set<string>): Manifest
    requires AllParse(tokens)
  {
    set t | t in tokens :: Parse(t).value
  }

  /** One malformed token invalidates the whole set. */
  function FromTokenSet(tokens: set<string>): Option<Manifest> {
    if AllParse(tokens) then Some(ParsedSet(tokens)) else None
  }

  /** Tokens in order: the grants of all of them, or the first error. */
  method FromTokens(tokens: seq<string>) returns (r: Result<Manifest>)
    ensures r.Ok? <==> forall i :: 0 <= i < |tokens| ==> Parse(tokens[i]).Ok?
    ensures r.Ok? ==> FromTokenSet(set t | t in tokens) == Some(r.value)
    ensures r.Err? ==> exists i :: 0 <= i < |tokens| && Parse(tokens[i]) == Err(r.reason) &&
                         forall j :: 0 <= j < i ==> Parse(tokens[j]).Ok?
  {
    hide Parse;
    var grants: Manifest := {};
    for i := 0 to |tokens|
      invariant forall j :: 0 <= j < i ==> Parse(tokens[j]).Ok?
      invariant grants == set t | t in tokens[..i] && Parse(t).Ok? :: Parse(t).value
    {
      var g := Parse(tokens[i]);
      if g.Err? {
        return Err(g.reason);
      }
      assert tokens[..i + 1] == tokens[..i] + [tokens[i]];
      grants := grants + {g.value};
    }
    assert tokens[..|tokens|] == tokens;
    ghost var all := set t | t in tokens;
    assert AllParse(all) && grants == ParsedSet(all);
    return Ok(grants);
  }

  lemma {:induction false} ParsedArePrintable(tokens: set<string>)
    requires AllParse(tokens)
    ensures forall g :: g in ParsedSet(tokens) ==> Printable(g)
  {
    hide Parse, Printable;
    forall t | t in tokens
      ensures Printable(Parse(t).value)
    {
      ParsePrintParse(t);
    }
  }

  /** A manifest and its canonical token set determine each other exactly when
      all its grants are printable. */
  lemma {:induction false} ManifestRoundTrip(m: Manifest)
    ensures FromTokenSet(Tokens(m)) == Some(m) <==> forall g :: g in m ==> Printable(g)
  {
    hide Parse, Print, Printable;
    if forall g :: g in m ==> Printable(g) {
      forall g | g in m
        ensures Parse(Print(g)) == Ok(g)
      {
        RoundTripIffPrintable(g);
      }
      PrintedManifest(m);
    } else if FromTokenSet(Tokens(m)) == Some(m) {
      ParsedArePrintable(Tokens(m));
    }
  }

  lemma {:induction false} PrintedManifest(m: Manifest)
    requires forall g :: g in m ==> Parse(Print(g)) == Ok(g)
    ensures FromTokenSet(Tokens(m)) == Some(m)
  {
    hide Parse, Print;
    var tokens := Tokens(m);
    assert AllParse(tokens);
    forall g | g in m
      ensures g in ParsedSet(tokens)
    {
      assert Print(g) in tokens;
    }
    assert ParsedSet(tokens) == m;
  }

  /** Canonical tokens are injective on printable grants. */
  lemma {:induction false} TokensInjective(g: Grant, h: Grant)
    requires Printable(g) && Printable(h)
    ensures Print(g) == Print(h) <==> g == h
  {
    hide Parse, Print, Printable;
    PrintedParses(g);
    PrintedParses(h);
  }
}
