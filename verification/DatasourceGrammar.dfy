/** What parseDatasource() makes of every text, by how the text is made up. */
module DatasourceGrammar {
  import opened Common
  import opened Text
  import opened DatasourceParser
  import opened DatasourcePrinter
  import opened DatasourceRoundTrip

  predicate WithoutAny(s: string, chars: string) {
    forall i :: 0 <= i < |s| ==> s[i] !in chars
  }

  /** A driver is found if and only if the text starts with one: a name before the first ':' without '@', '/', '%'. */
  lemma DriverFound(s: string, driver: string, rest: string)
    ensures SplitDriver(s) == (Some(driver), rest) <==> s == driver + ":" + rest && WithoutAny(driver, ":@/%")
  {
    var p := IndexOf(s, ':');
    assert p < |s| ==> s == s[..p] + ":" + s[p + 1..];
    if s == driver + ":" + rest && WithoutAny(driver, ":@/%") {
      assert s[..|driver|] == driver && s[|driver| + 1..] == rest;
      FirstIs(s, ':', |driver|);
    }
  }

  /** There is none if and only if every ':' comes after one of '@', '/', '%'. */
  lemma NoDriverFound(s: string)
    ensures SplitDriver(s) == (None, s) <==>
      forall p :: 0 <= p < |s| && s[p] == ':' ==> exists i :: 0 <= i < p && s[i] in "@/%"
  {
    var p := IndexOf(s, ':');
    if p < |s| {
      assert HasAny(s[..p], "@/%") <==> exists i :: 0 <= i < p && s[i] in "@/%";
    }
  }

  /** A user before a '/' is found if and only if what precedes the first '/' is neither "@" nor "@.", which start a
      path, and the '/' is not inside braces. */
  lemma UserFound(s: string, user: string, rest: string)
    ensures SplitUser(s) == (Some(user), rest) <==>
      && s == user + "/" + rest && '/' !in user
      && user != "@" && user != "@." && !('{' in user && '}' in rest)
  {
    var p := IndexOf(s, '/');
    assert p < |s| ==> s == s[..p] + "/" + s[p + 1..];
    if s == user + "/" + rest && '/' !in user {
      assert s[..|user|] == user && s[|user| + 1..] == rest;
      FirstIs(s, '/', |user|);
      assert user == "@" <==> s[0] == '@' && |user| == 1;
      assert user == "@." <==> s[0] == '@' && s[1] == '.' && |user| == 2;
    }
  }

  lemma UserOrNone(s: string)
    ensures SplitUser(s).0 == None ==> SplitUser(s).1 == s
  {
  }

  function WithLogin(r: Result<Config>, user: string, pass: string): Result<Config> {
    match r
    case Ok(c) => Ok(c.(user := NonEmpty(user), pass := NonEmpty(pass)))
    case Err(e) => Err(e)
  }

  /** The last '@' separates the login from the location: with a password, */
  lemma LoginWithPassword(user: string, pass: string, location: string)
    requires '/' !in user && user != "@" && user != "@." && '@' !in location
    requires !('{' in user && '}' in pass + "@" + location)
    ensures ParseLogin(user + "/" + (pass + "@" + location)) == WithLogin(ParseLocation(location), user, pass)
  {
    hide ParseLocation;
    UserFound(user + "/" + (pass + "@" + location), user, pass + "@" + location);
    hide SplitUser;
    SplitAtLast(pass, location);
  }

  /** and without. */
  lemma LoginWithoutPassword(user: string, location: string)
    requires '@' !in location && SplitUser(user + "@" + location).0 == None
    ensures ParseLogin(user + "@" + location) == WithLogin(ParseLocation(location), user, "")
  {
    hide ParseLocation;
    UserOrNone(user + "@" + location);
    hide SplitUser;
    SplitAtLast(user, location);
    if ParseLocation(location).Ok? {
      NoLogin(location);
    }
  }

  lemma NoLogin(location: string)
    requires ParseLocation(location).Ok?
    ensures ParseLocation(location).value.user == None && ParseLocation(location).value.pass == None
  {
  }

  /** Without an '@' after the user there is no database name. */
  lemma LoginWithoutLocation(user: string, rest: string)
    requires '@' !in rest
    ensures '/' !in rest ==> ParseLogin(rest) == Err(MissingDatabase)
    ensures '/' !in user && user != "@" && user != "@." && !('{' in user && '}' in rest) ==>
      ParseLogin(user + "/" + rest) == Err(MissingDatabase)
  {
    hide ParseLocation;
    if '/' !in user && user != "@" && user != "@." && !('{' in user && '}' in rest) {
      UserFound(user + "/" + rest, user, rest);
    }
  }

  /** The encoding is what is between the first '(' and the next ')'. */
  lemma LocationWithEncoding(db: string, encoding: string, tail: string)
    requires '(' !in db && ')' !in encoding
    ensures ParseLocation(db + "(" + encoding + ")" + tail) == ParseTail(DbConfig(db, Some(encoding)), tail)
    ensures ParseLocation(db + "(" + encoding) == Err(MissingParenthesis)
  {
    hide ParseTail;
    EncodedLocation(db, encoding, tail);
    var s := db + "(" + encoding;
    FirstIs(s, '(', |db|);
    assert s[|db|..] == "(" + encoding;
    FirstIs(s[|db|..], ')', |s| - |db|);
  }

  /** Without one the database name ends at the first '%', or ':' before a digit. */
  lemma LocationWithoutEncoding(db: string, rest: string)
    requires '(' !in db + rest && NoDelimiter(db, true)
    requires rest != "" ==> Delimits(rest, 0, true)
    ensures ParseLocation(db + rest) == ParseTail(DbConfig(db, None), db + rest)
  {
    hide ParseTail;
    DelimiterAfter(db, rest, true);
    assert (db + rest)[..|db|] == db;
  }

  /** What ends a name: a ':' does only if a digit follows, a '%' only in a database name. */
  lemma WhatEndsAName(s: string, percent: bool)
    ensures NoDelimiter(s, percent) <==>
      && (percent ==> '%' !in s)
      && forall i :: 0 <= i < |s| - 1 ==> !(s[i] == ':' && '0' <= s[i + 1] <= '9')
    ensures FirstDelimiter(s, percent) == |s| <==> NoDelimiter(s, percent)
  {
    if percent && '%' in s {
      var i :| 0 <= i < |s| && s[i] == '%';
      assert Delimits(s, i, percent);
    }
    if i :| 0 <= i < |s| - 1 && s[i] == ':' && '0' <= s[i + 1] <= '9' {
      assert Delimits(s, i, percent);
    }
  }

  /** A host follows the first '%', a port the first ':' before a digit; what precedes them is ignored here. */
  lemma TailForms(c: Config, front: string, rest: string)
    requires NoDelimiter(front, true)
    ensures ParseTail(c, front) == Ok(c)
    ensures ParseTail(c, front + ("%" + rest)) ==
      match ParseHost(rest)
      case Ok((host, port)) => Ok(c.(host := Some(host), port := port))
      case Err(e) => Err(e)
    ensures rest != "" && IsDigit(rest[0]) ==>
      ParseTail(c, front + (":" + rest)) ==
        if AllDigits(rest) then Ok(c.(port := Some(Atoi(rest)))) else Err(InvalidPort)
  {
    assert front + "" == front;
    TailWithNothing(c, front);
    TailWithHost(c, front, rest);
    if rest != "" && IsDigit(rest[0]) {
      hide Atoi;
      DelimiterAfter(front, ":" + rest, true);
      assert (front + (":" + rest))[|front| + 1..] == rest;
      DigitsOnly(rest);
    }
  }

  lemma DigitsOnly(s: string)
    ensures LeadingDigits(s) == |s| <==> AllDigits(s)
  {
    assert s[..|s|] == s;
  }

  /** The host name is not empty and ends at the first ':' before a digit; the port is a number and nothing else. */
  lemma HostForms(host: string, port: string)
    requires NoDelimiter(host, false)
    ensures ParseHost(host) == if host == "" then Err(MissingHost) else Ok((host, None))
    ensures port != "" && IsDigit(port[0]) ==>
      ParseHost(host + ":" + port) ==
        if host == "" then Err(MissingHost)
        else if AllDigits(port) then Ok((host, Some(Atoi(port))))
        else Err(InvalidPort)
  {
    hide Atoi;
    assert host + "" == host;
    DelimiterAfter(host, "", false);
    if port != "" && IsDigit(port[0]) {
      var s := host + ":" + port;
      assert s == host + (":" + port);
      DelimiterAfter(host, ":" + port, false);
      assert s[|host| + 1..] == port && s[..|host|] == host;
      DigitsOnly(port);
    }
  }

  /** An option block is a last part in braces, of a text with more than two characters. */
  lemma OptionBlockForms(body: string, text: string)
    ensures '{' !in text && body + text != "" ==> SplitOptions(body + ("{" + text + "}")) == (body, Some(text))
    ensures body == "" || body[|body| - 1] != '}' || '{' !in body ==> SplitOptions(body) == (body, None)
    ensures SplitOptions("{}") == ("{}", None)
  {
    if '{' !in text && body + text != "" {
      SplitBlock(body, text);
    }
  }

  /** White space around the text does not matter; a text of nothing else has no database name. */
  lemma SpaceAround(left: string, s: string, right: string)
    requires AllBlank(left) && AllBlank(right) && Trimmed(s) && left + s + right != ""
    ensures s != "" ==> Parse(left + s + right) == Parse(s)
    ensures s == "" ==> Parse(left + s + right) == Err(MissingDatabase)
    ensures Parse("") == Err(EmptyText)
  {
    TrimIs(left, s, right);
    TrimOfTrimmed(s);
    hide Trim;
    if s == "" {
      LoginWithoutLocation("", "");
    }
  }

  /** An option without '=' is a flag, as it stands. */
  lemma FlagOption(flag: string, rest: string, opts: OptionMap)
    requires '=' !in flag && ',' !in flag
    ensures flag != "" ==> ParseOptions(flag, opts) == Ok(opts[flag := True])
    ensures ParseOptions(flag + "," + rest, opts) == ParseOptions(rest, opts[flag := True])
  {
    var s := flag + "," + rest;
    assert s[..|flag|] == flag && s[|flag| + 1..] == rest;
    FirstIs(s, ',', |flag|);
  }

  /** An option with '=' has a name and a value, both trimmed; its name must be new as it stands. */
  lemma ValueOption(key: string, value: string, rest: string, opts: OptionMap)
    requires key != "" && '=' !in key && ',' !in key && ',' !in value
    ensures ParseOptions(key + "=" + value, opts) ==
      if key in opts then Err(RepeatedOption) else Ok(opts[Trim(key) := Value(Trim(value))])
    ensures ParseOptions(key + "=" + value + "," + rest, opts) ==
      if key in opts then Err(RepeatedOption) else ParseOptions(rest, opts[Trim(key) := Value(Trim(value))])
  {
    hide Trim;
    var n := |key| + 1 + |value|;
    var s := key + "=" + value;
    assert s[..|key|] == key && s[|key| + 1..] == value && s[|key| + 1..n] == value;
    FirstIs(s, '=', |key|);
    FirstIs(s, ',', n);
    var t := s + "," + rest;
    assert t[..|key|] == key && t[|key| + 1..n] == value && t[n + 1..] == rest && t[..n] == s;
    FirstIs(t, '=', |key|);
    FirstIs(t, ',', n);
  }

  /** An option that starts with '=' has no name. */
  lemma NamelessOption(rest: string, opts: OptionMap)
    ensures ParseOptions("=" + rest, opts) == Err(MissingOptionName)
    ensures ParseOptions("", opts) == Ok(opts)
  {
    FirstIs("=" + rest, '=', 0);
  }

  /** A bad option block makes the whole text invalid, whatever precedes it. */
  lemma BadOptions(body: string, text: string)
    requires '{' !in text && body + text != "" && (body != "" ==> !IsBlank(body[0]))
    requires ParseOptions(text, map[]).Err?
    ensures Parse(body + ("{" + text + "}")) == Err(ParseOptions(text, map[]).error)
  {
    hide ParseOptions, ParseBody, Trim, SplitOptions;
    SplitBlock(body, text);
    TrimOfTrimmed(body + ("{" + text + "}"));
  }

  /** The text of a datasource without a driver. */
  function Driverless(c: Source): string {
    Login(c) + "@" + Location(c)
  }

  lemma DriverlessEnds(c: Source)
    requires FieldsOk(c) && (c.user != "" ==> !IsBlank(c.user[0]))
    ensures var s := Driverless(c); s != "" && !IsBlank(s[0]) && !IsBlank(s[|s| - 1]) && s[|s| - 1] != '}'
  {
    NoClosingBrace(c);
    hide Location;
    if Location(c) != "" {
      LocationEnd(c);
    }
  }

  /** A text without a driver comes back with all its fields and options, and without a driver, as long as no ':' in
      the user name makes a driver of what precedes it. */
  lemma WithoutDriver(c: Source, settings: seq<Setting>)
    requires FieldsOk(c) && SettingsOk(settings) && (c.user != "" ==> !IsBlank(c.user[0]))
    requires forall p :: 0 <= p < |c.user| && c.user[p] == ':' ==> HasAny(c.user[..p], "@/%")
    ensures Parse(Driverless(c) + OptionBlock(settings)) ==
      Ok(LoginHash(c).(driver := None, options := if settings == [] then None else Some(MapOf(settings))))
  {
    hide Driverless, LoginHash, FieldsOk, ParseBody, MapOf, Parse, OptionBlock;
    DriverlessEnds(c);
    DriverlessBody(c, None);
    DriverlessBody(c, Some(MapOf(settings)));
    AnyBlock(Driverless(c), settings);
  }

  lemma DriverlessBody(c: Source, options: Option<OptionMap>)
    requires FieldsOk(c)
    requires forall p :: 0 <= p < |c.user| && c.user[p] == ':' ==> HasAny(c.user[..p], "@/%")
    ensures ParseBody(Driverless(c), options) == Ok(LoginHash(c).(driver := None, options := options))
  {
    ColonsAfter(c);
    NoDriverFound(Driverless(c));
    LoginRoundTrip(c);
    hide SplitDriver, ParseLogin, LoginHash, FieldsOk, Location, Login;
  }

  /** Options are read from a block at the end of any text. */
  lemma AnyBlock(body: string, settings: seq<Setting>)
    requires SettingsOk(settings) && body != ""
    requires !IsBlank(body[0]) && !IsBlank(body[|body| - 1]) && body[|body| - 1] != '}'
    ensures Parse(body + OptionBlock(settings)) ==
      ParseBody(body, if settings == [] then None else Some(MapOf(settings)))
  {
    hide ParseBody, SplitOptions, ParseOptions, Join, MapOf;
    var s := body + OptionBlock(settings);
    TrimOfTrimmed(s);
    hide Trim;
    if settings == [] {
      assert s == body;
      NoBlock(s);
    } else {
      JoinNoBrace(settings);
      SplitBlock(body, Join(settings));
      OptionsRoundTrip(settings, map[]);
      assert map[] + MapOf(settings) == MapOf(settings);
    }
  }

  lemma ColonsAfter(c: Source)
    requires forall p :: 0 <= p < |c.user| && c.user[p] == ':' ==> HasAny(c.user[..p], "@/%")
    ensures var s := Driverless(c);
      forall p :: 0 <= p < |s| && s[p] == ':' ==> exists i :: 0 <= i < p && s[i] in "@/%"
  {
    hide Location;
    var s, n := Driverless(c), |c.user|;
    assert s[..n] == c.user && s[n] in "@/%";
    forall p | 0 <= p < |s| && s[p] == ':'
      ensures exists i :: 0 <= i < p && s[i] in "@/%"
    {
      if p < n {
        var i :| 0 <= i < |c.user[..p]| && c.user[..p][i] in "@/%";
        assert s[i] == c.user[i];
      }
    }
  }
}
