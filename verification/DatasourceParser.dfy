/** parseDatasource() of lib/DBI.cpp:  driver:user/pass@db(encoding)%host:port{option1,option2=value}

    A string is the text of a C string; where the source writes a NUL into its buffer, the model cuts a
    substring.
  */
module DatasourceParser {
  import opened Common
  import opened Text

  datatype OptionValue = True | Value(text: string)

  type OptionMap = map<string, OptionValue>

  /** The resulting hash; a key that was not set is None. */
  datatype Config = Config(
    driver: Option<string>,
    user: Option<string>,
    pass: Option<string>,
    db: Option<string>,
    charset: Option<string>,
    host: Option<string>,
    port: Option<int>,
    options: Option<OptionMap>)

  datatype Error =
    | EmptyText | MissingOptionName | RepeatedOption | MissingDatabase | MissingParenthesis | MissingHost
    | InvalidPort

  datatype Result<+T> = Ok(value: T) | Err(error: Error)

  /** The options with the first one of the text added. */
  function AddOption(s: string, opts: OptionMap): Result<OptionMap> {
    var eq, oend := IndexOf(s, '='), IndexOf(s, ',');
    if eq == |s| && oend == |s| then Ok(opts[s := True])
    else if oend < eq then Ok(opts[s[..oend] := True])
    else if eq == 0 then Err(MissingOptionName)
    else if s[..eq] in opts then Err(RepeatedOption)
    else Ok(opts[Trim(s[..eq]) := Value(Trim(s[eq + 1..oend]))])
  }

  /** The loop over the option text, from the options in `opts`. */
  function ParseOptions(s: string, opts: OptionMap): Result<OptionMap>
    decreases |s|
  {
    if s == "" then Ok(opts)
    else
      var oend := IndexOf(s, ',');
      match AddOption(s, opts)
      case Err(e) => Err(e)
      case Ok(opts') => if oend < |s| then ParseOptions(s[oend + 1..], opts') else Ok(opts')
  }

  /** Cuts the option block off a trimmed text: the rest, and the text between the braces. */
  function SplitOptions(s: string): (string, Option<string>) {
    var brace := LastIndexOf(s, '{');
    if |s| > 2 && s[|s| - 1] == '}' && brace < |s| then (s[..brace], Some(s[brace + 1..|s| - 1]))
    else (s, None)
  }

  predicate HasAny(s: string, chars: string) {
    exists i :: 0 <= i < |s| && s[i] in chars
  }

  function SplitDriver(s: string): (Option<string>, string) {
    var p := IndexOf(s, ':');
    if p < |s| && !HasAny(s[..p], "@/%") then (Some(s[..p]), s[p + 1..]) else (None, s)
  }

  /** The '/' at `p` is part of a path, not the separator of user and password. */
  predicate IsPath(s: string, p: nat)
    requires p < |s|
  {
    || (s[0] == '@' && (p == 1 || (p == 2 && s[1] == '.')))
    || ('}' in s[p + 1..] && '{' in s[..p])
  }

  /** Splits off the user before '/'; the second component is what follows. */
  function SplitUser(s: string): (Option<string>, string) {
    var p := IndexOf(s, '/');
    if p < |s| && !IsPath(s, p) then (Some(s[..p]), s[p + 1..]) else (None, s)
  }

  function NonEmpty(s: string): Option<string> {
    if s == "" then None else Some(s)
  }

  /** Position `i` ends the database or host name: a '%' (if looked for), or a ':' before a digit. */
  predicate Delimits(s: string, i: nat, percent: bool)
    requires i < |s|
  {
    (percent && s[i] == '%') || (s[i] == ':' && i + 1 < |s| && IsDigit(s[i + 1]))
  }

  /** check_datasource_chars(): the first such position, or the length of `s`. */
  function FirstDelimiter(s: string, percent: bool): (i: nat)
    ensures i <= |s|
    ensures i < |s| ==> Delimits(s, i, percent)
    ensures forall j :: 0 <= j < i ==> !Delimits(s, j, percent)
  {
    if s == "" || Delimits(s, 0, percent) then 0
    else
      var i := 1 + FirstDelimiter(s[1..], percent);
      assert forall j :: 0 < j < |s| ==> Delimits(s, j, percent) == Delimits(s[1..], j - 1, percent);
      i
  }

  function ParsePort(s: string): Result<int> {
    if LeadingDigits(s) < |s| then Err(InvalidPort) else Ok(Atoi(s))
  }

  /** What follows the '%': a host name and perhaps a port. */
  function ParseHost(s: string): Result<(string, Option<int>)> {
    var p := FirstDelimiter(s, false);
    if p == 0 then Err(MissingHost)
    else if p == |s| then Ok((s, None))
    else
      match ParsePort(s[p + 1..])
      case Ok(port) => Ok((s[..p], Some(port)))
      case Err(e) => Err(e)
  }

  /** What follows the database name and encoding: perhaps a host, perhaps a port. */
  function ParseTail(c: Config, tail: string): Result<Config> {
    var p := FirstDelimiter(tail, true);
    if p == |tail| then Ok(c)
    else if tail[p] == '%' then
      match ParseHost(tail[p + 1..])
      case Ok((host, port)) => Ok(c.(host := Some(host), port := port))
      case Err(e) => Err(e)
    else
      match ParsePort(tail[p + 1..])
      case Ok(port) => Ok(c.(port := Some(port)))
      case Err(e) => Err(e)
  }

  function DbConfig(db: string, charset: Option<string>): Config {
    Config(None, None, None, Some(db), charset, None, None, None)
  }

  /** What follows the last '@'. */
  function ParseLocation(s: string): Result<Config> {
    var open := IndexOf(s, '(');
    var close := open + IndexOf(s[open..], ')');
    if open == |s| then ParseTail(DbConfig(s[..FirstDelimiter(s, true)], None), s)
    else if close == |s| then Err(MissingParenthesis)
    else ParseTail(DbConfig(s[..open], Some(s[open + 1..close])), s[close + 1..])
  }

  /** What follows the driver. */
  function ParseLogin(s: string): Result<Config> {
    var (user, rest) := SplitUser(s);
    var at := LastIndexOf(rest, '@');
    if at == |rest| then Err(MissingDatabase)
    else
      match ParseLocation(rest[at + 1..])
      case Err(e) => Err(e)
      case Ok(c) =>
        if user.Some? then Ok(c.(user := NonEmpty(user.value), pass := NonEmpty(rest[..at])))
        else Ok(c.(user := NonEmpty(rest[..at])))
  }

  function ParseBody(s: string, options: Option<OptionMap>): Result<Config> {
    var (driver, rest) := SplitDriver(s);
    match ParseLogin(rest)
    case Err(e) => Err(e)
    case Ok(c) => Ok(c.(driver := driver, options := options))
  }

  function Parse(ds: string): Result<Config> {
    if ds == "" then Err(EmptyText)
    else
      var (body, text) := SplitOptions(Trim(ds));
      match text
      case None => ParseBody(body, None)
      case Some(t) =>
        match ParseOptions(t, map[])
        case Err(e) => Err(e)
        case Ok(opts) => ParseBody(body, Some(opts))
  }

  /** The option loop of the source; its position advances in every turn. */
  method ParseOptionText(s: string) returns (r: Result<OptionMap>)
    ensures r == ParseOptions(s, map[])
  {
    hide IndexOf, Trim, AddOption;
    var opts: OptionMap := map[];
    var p := 0;
    assert s[0..] == s;
    while p < |s|
      invariant p <= |s|
      invariant ParseOptions(s, map[]) == ParseOptions(s[p..], opts)
      decreases |s| - p
    {
      var rest := s[p..];
      var next;
      r, next := ParseOption(rest, opts);
      if r.Err? {
        return;
      }
      opts := r.value;
      assert next < |rest| ==> rest[next + 1..] == s[p + next + 1..];
      p := if next < |rest| then p + next + 1 else |s|;
    }
    r := Ok(opts);
  }

  /** The body of the option loop: the options with one more, and where the next one is separated. */
  method ParseOption(rest: string, opts: OptionMap) returns (r: Result<OptionMap>, oend: nat)
    ensures r == AddOption(rest, opts) && oend == IndexOf(rest, ',')
  {
    var eq;
    eq, oend := IndexOf(rest, '='), IndexOf(rest, ',');
    if eq == |rest| && oend == |rest| {
      return Ok(opts[rest := True]), oend;
    }
    if oend < |rest| && oend < eq {
      return Ok(opts[rest[..oend] := True]), oend;
    }
    if eq == 0 {
      return Err(MissingOptionName), oend;
    }
    var key := rest[..eq];
    if key in opts {
      return Err(RepeatedOption), oend;
    }
    r := Ok(opts[Trim(key) := Value(Trim(rest[eq + 1..oend]))]);
  }

  /** The loop of check_datasource_chars(). */
  method CheckDatasourceChars(s: string, percent: bool) returns (p: nat)
    ensures p == FirstDelimiter(s, percent)
  {
    p := 0;
    while p < |s| && !Delimits(s, p, percent)
      invariant p <= |s|
      invariant forall j :: 0 <= j < p ==> !Delimits(s, j, percent)
    {
      p := p + 1;
    }
  }

  method ParseDatasource(ds: string) returns (r: Result<Config>)
    ensures r == Parse(ds)
  {
    if ds == "" {
      return Err(EmptyText);
    }
    var str := Trim(ds);
    var options: Option<OptionMap> := None;
    // a text that ends in '}' has an option block from its last '{' on
    if |str| > 2 && str[|str| - 1] == '}' {
      var brace := LastIndexOf(str, '{');
      if brace < |str| {
        var opts := ParseOptionText(str[brace + 1..|str| - 1]);
        if opts.Err? {
          return Err(opts.error);
        }
        options := Some(opts.value);
        str := str[..brace];
      }
    }
    r := ParseBody(str, options);
  }
}
