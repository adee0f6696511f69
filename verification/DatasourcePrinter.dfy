/** Printing a datasource's configuration: getConfigString(), getConfigHash() and getCurrentOptionHash() of
    lib/Datasource.cpp, and the pool's getConfigString(). */
module DatasourcePrinter {
  import opened Common
  import opened Text
  import opened DatasourceParser

  /** The value of an option: NOTHING, a boolean, or anything else with its text. */
  datatype RawValue = Nothing | Bool(b: bool) | Other(text: string)

  /** A datasource: `opts` is its option hash in order; `connected` says it has private data. */
  datatype Source = Source(
    connected: bool,
    driver: string, user: string, pass: string, db: string, encoding: string, host: string,
    port: nat,
    opts: seq<(string, RawValue)>)

  /** An option that is printed. */
  type Setting = (string, OptionValue)

  predicate Skipped(v: RawValue) {
    v == Nothing || v == Bool(false)
  }

  function Rendered(v: RawValue): OptionValue
    requires !Skipped(v)
  {
    match v
    case Bool(_) => True
    case Other(text) => Value(text)
  }

  /** The options that are set, values other than booleans rendered as text. */
  function Settings(opts: seq<(string, RawValue)>): seq<Setting> {
    if opts == [] then []
    else
      var n := |opts| - 1;
      if Skipped(opts[n].1) then Settings(opts[..n])
      else Settings(opts[..n]) + [(opts[n].0, Rendered(opts[n].1))]
  }

  function Item(o: Setting): string {
    match o.1
    case True => o.0
    case Value(text) => o.0 + "=" + text
  }

  function Join(settings: seq<Setting>): string {
    if settings == [] then ""
    else if |settings| == 1 then Item(settings[0])
    else Item(settings[0]) + "," + Join(settings[1..])
  }

  function OptionBlock(settings: seq<Setting>): string {
    if settings == [] then "" else "{" + Join(settings) + "}"
  }

  function HostPort(c: Source): string {
    (if c.host == "" then "" else "%" + c.host) + (if c.port == 0 then "" else ":" + Render(c.port))
  }

  function Location(c: Source): string {
    c.db + (if c.encoding == "" then "" else "(" + c.encoding + ")") + HostPort(c)
  }

  function Login(c: Source): string {
    c.user + (if c.pass == "" then "" else "/" + c.pass)
  }

  /** The configuration string without its option block; without a connection an empty database name also
      loses its '@'. */
  function Body(c: Source): string {
    c.driver + ":" + Login(c) + (if c.connected || c.db != "" then "@" else "") + Location(c)
  }

  function ConfigString(c: Source): string {
    Body(c) + OptionBlock(Settings(c.opts))
  }

  function MapOf(settings: seq<Setting>): OptionMap {
    if settings == [] then map[]
    else
      var n := |settings| - 1;
      MapOf(settings[..n])[settings[n].0 := settings[n].1]
  }

  /** getConfigHash(), with option values rendered as text. */
  function ConfigHash(c: Source): Config {
    Config(
      Some(c.driver), NonEmpty(c.user), NonEmpty(c.pass), NonEmpty(c.db), NonEmpty(c.encoding), NonEmpty(c.host),
      if c.port == 0 then None else Some(c.port),
      if Settings(c.opts) == [] then None else Some(MapOf(Settings(c.opts))))
  }

  /** The loop of getConfigString() over the options. */
  method PrintOptions(opts: seq<(string, RawValue)>) returns (str: string)
    ensures str == OptionBlock(Settings(opts))
  {
    hide Join, Item, Settings;
    str := "";
    var first := false;
    var i := 0;
    SettingsAt(opts, 0);
    while i < |opts|
      invariant i <= |opts|
      invariant first <==> Settings(opts[..i]) != []
      invariant str == if first then "{" + Join(Settings(opts[..i])) else ""
    {
      var (key, v) := opts[i];
      SettingsAt(opts, i + 1);
      i := i + 1;
      if Skipped(v) {
        continue;
      }
      JoinSnoc(Settings(opts[..i - 1]), (key, Rendered(v)));
      ItemForms(key, v);
      var item := key;
      if v.Other? {
        item := item + ("=" + v.text);
      }
      Bracketed(Join(Settings(opts[..i - 1])), item);
      str := if first then str + "," + item else "{" + item;
      first := true;
    }
    assert opts[..i] == opts;
    if first {
      str := str + "}";
    }
  }

  lemma SettingsAt(opts: seq<(string, RawValue)>, i: nat)
    requires i <= |opts|
    ensures i == 0 ==> Settings(opts[..i]) == []
    ensures i > 0 ==>
      Settings(opts[..i]) ==
        if Skipped(opts[i - 1].1) then Settings(opts[..i - 1])
        else Settings(opts[..i - 1]) + [(opts[i - 1].0, Rendered(opts[i - 1].1))]
  {
    if i > 0 {
      assert opts[..i][..i - 1] == opts[..i - 1];
    }
  }

  /** An option that is NOTHING or false is left out; one that is true is a flag; any other has its text. */
  lemma {:induction false} OptionsThatAreSet(opts: seq<(string, RawValue)>)
    requires forall i, j :: 0 <= i < j < |opts| ==> opts[i].0 != opts[j].0
    ensures forall key :: key in MapOf(Settings(opts)) ==> exists i :: 0 <= i < |opts| && opts[i].0 == key
    ensures forall i :: 0 <= i < |opts| ==>
      match opts[i].1
      case Nothing => opts[i].0 !in MapOf(Settings(opts))
      case Bool(false) => opts[i].0 !in MapOf(Settings(opts))
      case Bool(true) => opts[i].0 in MapOf(Settings(opts)) && MapOf(Settings(opts))[opts[i].0] == True
      case Other(text) => opts[i].0 in MapOf(Settings(opts)) && MapOf(Settings(opts))[opts[i].0] == Value(text)
  {
    if opts != [] {
      var n := |opts| - 1;
      var front, last := opts[..n], opts[n];
      OptionsThatAreSet(front);
      var before := Settings(front);
      assert (before + [(last.0, True)])[..|before|] == before;
      assert last.1.Other? ==> (before + [(last.0, Value(last.1.text))])[..|before|] == before;
      assert forall i :: 0 <= i < n ==> front[i] == opts[i];
      assert last.0 !in MapOf(before);
    }
  }

  lemma Bracketed(joined: string, item: string)
    ensures "{" + joined + "," + item == "{" + (joined + "," + item)
  {
  }

  lemma ItemForms(key: string, v: RawValue)
    requires !Skipped(v)
    ensures v.Bool? ==> Item((key, Rendered(v))) == key
    ensures v.Other? ==> Item((key, Rendered(v))) == key + ("=" + v.text)
  {
  }

  /** The database name and what follows it, up to the options. */
  method PrintLocation(c: Source) returns (str: string)
    ensures str == Location(c)
  {
    hide Render;
    str := c.db;
    if c.encoding != "" {
      str := str + ("(" + c.encoding + ")");
    }
    ghost var front := str;
    if c.host != "" {
      str := str + ("%" + c.host);
    }
    if c.port != 0 {
      str := str + (":" + Render(c.port));
    }
    assert str == front + HostPort(c);
  }

  /** getConfigString(). */
  method GetConfigString(c: Source) returns (str: string)
    ensures str == ConfigString(c)
  {
    hide Settings, OptionBlock, Location;
    str := c.user;
    if c.pass != "" {
      str := str + ("/" + c.pass);
    }
    // without a connection the '@' is printed with the database name only
    var at := if c.connected || c.db != "" then "@" else "";
    var location := PrintLocation(c);
    var options := PrintOptions(c.opts);
    str := c.driver + ":" + str + at + location + options;
  }

  lemma {:induction false} JoinSnoc(settings: seq<Setting>, o: Setting)
    ensures Join(settings + [o]) == if settings == [] then Item(o) else Join(settings) + "," + Item(o)
  {
    if |settings| == 1 {
      assert (settings + [o])[1..] == [o];
    } else if |settings| > 1 {
      assert (settings + [o])[1..] == settings[1..] + [o];
      JoinSnoc(settings[1..], o);
    }
  }

  /** The loop of getCurrentOptionHash(). */
  method CurrentOptionHash(opts: seq<(string, RawValue)>, ensureHash: bool) returns (options: Option<OptionMap>)
    ensures options == if Settings(opts) == [] && !ensureHash then None else Some(MapOf(Settings(opts)))
  {
    options := None;
    var i := 0;
    while i < |opts|
      invariant i <= |opts|
      invariant options ==
        if Settings(opts[..i]) == [] then None else Some(MapOf(Settings(opts[..i])))
    {
      var (key, v) := opts[i];
      assert opts[..i + 1][..i] == opts[..i];
      i := i + 1;
      if Skipped(v) {
        continue;
      }
      ghost var before := Settings(opts[..i - 1]);
      assert (before + [(key, Rendered(v))])[..|before|] == before;
      if options == None {
        options := Some(map[]);
      }
      options := Some(options.value[key := Rendered(v)]);
    }
    assert opts[..i] == opts;
    if ensureHash && options == None {
      options := Some(map[]);
    }
  }

  /** The min and max settings that the pool adds. */
  function PoolSettings(min: nat, max: nat): seq<Setting> {
    [("min", Value(Render(min))), ("max", Value(Render(max)))]
  }

  /** DatasourcePool::getConfigString(): `str` is the string of the underlying connection. */
  function PoolConfigString(str: string, min: nat, max: nat): string
    requires str != ""
  {
    var mm := "," + PoolSuffix(min, max);
    if str[|str| - 1] == '}' then str[..|str| - 1] + mm + "}" else str + ("{" + mm[1..] + "}")
  }

  function PoolSuffix(min: nat, max: nat): string {
    ("min=" + Render(min)) + "," + ("max=" + Render(max))
  }
}

/** Printing and parsing are inverse to each other. */
module DatasourceRoundTrip {
  import opened Common
  import opened Text
  import opened DatasourceParser
  import opened DatasourcePrinter

  /** A setting whose printed form can be told from its neighbours. */
  predicate SettingOk(o: Setting) {
    && o.0 != "" && '=' !in o.0 && ',' !in o.0 && '{' !in o.0
    && (o.1.Value? ==> ',' !in o.1.text && '{' !in o.1.text && Trimmed(o.0) && Trimmed(o.1.text))
  }

  ghost predicate SettingsOk(settings: seq<Setting>) {
    && (forall i :: 0 <= i < |settings| ==> SettingOk(settings[i]))
    && (forall i, j :: 0 <= i < j < |settings| ==> settings[i].0 != settings[j].0)
  }

  /** Parsing printed options adds exactly those options. */
  lemma {:induction false} OptionsRoundTrip(settings: seq<Setting>, opts: OptionMap)
    requires SettingsOk(settings)
    requires forall i :: 0 <= i < |settings| ==> settings[i].0 !in opts
    ensures ParseOptions(Join(settings), opts) == Ok(opts + MapOf(settings))
  {
    if settings == [] {
      assert opts + MapOf(settings) == opts;
    } else {
      var o, rest := settings[0], settings[1..];
      var opts' := opts[o.0 := o.1];
      UpdateCons(settings, opts);
      if rest == [] {
        LastItem(o, opts);
        assert opts' + MapOf(rest) == opts';
      } else {
        FirstItem(o, Join(rest), opts);
        assert Join(settings) == Item(o) + "," + Join(rest);
        OptionsRoundTrip(rest, opts');
      }
    }
  }

  lemma UpdateCons(settings: seq<Setting>, opts: OptionMap)
    requires settings != []
    ensures opts + MapOf(settings) == opts[settings[0].0 := settings[0].1] + MapOf(settings[1..])
  {
    var o, rest := settings[0], settings[1..];
    assert [o][..0] == [];
    assert MapOf([o]) == map[o.0 := o.1];
    MapOfConcat([o], rest);
    assert settings == [o] + rest;
  }

  lemma LastItem(o: Setting, opts: OptionMap)
    requires SettingOk(o) && o.0 !in opts
    ensures ParseOptions(Item(o), opts) == Ok(opts[o.0 := o.1])
  {
    var s := Item(o);
    match o.1
    case True =>
      FirstIs(s, '=', |s|);
      FirstIs(s, ',', |s|);
    case Value(text) =>
      var k := |o.0|;
      FirstIs(s, '=', k);
      FirstIs(s, ',', |s|);
      assert s[..k] == o.0 && s[k + 1..|s|] == text;
      TrimOfTrimmed(o.0);
      TrimOfTrimmed(text);
  }

  lemma FirstItem(o: Setting, rest: string, opts: OptionMap)
    requires SettingOk(o) && o.0 !in opts
    ensures ParseOptions(Item(o) + "," + rest, opts) == ParseOptions(rest, opts[o.0 := o.1])
  {
    var s := Item(o) + "," + rest;
    var k, m := |o.0|, |Item(o)|;
    assert s[..m] == Item(o) && s[m + 1..] == rest;
    FirstIs(s, ',', m);
    match o.1
    case True =>
      assert IndexOf(s, '=') > m;
    case Value(text) =>
      assert s[..k] == o.0 && s[k] == '=' && s[k + 1..m] == text;
      FirstIs(s, '=', k);
      TrimOfTrimmed(o.0);
      TrimOfTrimmed(text);
  }

  predicate NoDelimiter(s: string, percent: bool) {
    forall i :: 0 <= i < |s| ==> !Delimits(s, i, percent)
  }

  predicate StartsPath(s: string) {
    "/" <= s || "./" <= s
  }

  /** The last character of the text before the option block is not white space. */
  predicate TailOk(c: Source) {
    if c.port != 0 then true
    else if c.host != "" then !IsBlank(c.host[|c.host| - 1])
    else if c.encoding != "" || c.db == "" then true
    else !IsBlank(c.db[|c.db| - 1])
  }

  /** The field values for which the grammar is unambiguous. */
  predicate FieldsOk(c: Source) {
    && ':' !in c.driver && !HasAny(c.driver, "@/%") && (c.driver != "" ==> !IsBlank(c.driver[0]))
    && '}' !in c.driver + c.user + c.pass + c.db + c.encoding + c.host
    && '/' !in c.user && (c.pass != "" ==> c.user != "@" && c.user != "@.")
    && (c.pass == "" ==> '/' !in c.db + c.encoding + c.host || (c.user == "" && StartsPath(c.db)))
    && '@' !in c.db + c.encoding + c.host
    && '(' !in c.db && ')' !in c.encoding
    && (c.encoding == "" ==> NoDelimiter(c.db, true) && '(' !in c.host)
    && NoDelimiter(c.host, false)
    && c.port <= INT_MAX
    && TailOk(c)
  }

  lemma DelimiterAfter(a: string, b: string, percent: bool)
    requires NoDelimiter(a, percent)
    requires b != "" ==> !IsDigit(b[0]) && Delimits(b, 0, percent)
    ensures FirstDelimiter(a + b, percent) == |a|
  {
    forall j | 0 <= j < |a|
      ensures !Delimits(a + b, j, percent)
    {
      assert !Delimits(a, j, percent);
    }
    if b != "" {
      assert Delimits(a + b, |a|, percent);
    }
  }

  function PortText(c: Source): string {
    if c.port == 0 then "" else ":" + Render(c.port)
  }

  lemma PortRoundTrip(port: nat)
    requires port <= INT_MAX
    ensures ParsePort(Render(port)) == Ok(port)
    ensures (":" + Render(port))[1..] == Render(port)
    ensures Delimits(":" + Render(port), 0, false) && Delimits(":" + Render(port), 0, true)
  {
    AtoiOfRender(port);
  }

  function PortOf(c: Source): Option<int> {
    if c.port == 0 then None else Some(c.port)
  }

  lemma HostRoundTrip(c: Source)
    requires c.host != "" && NoDelimiter(c.host, false) && c.port <= INT_MAX
    ensures ParseHost(c.host + PortText(c)) == Ok((c.host, PortOf(c)))
  {
    PortRoundTrip(c.port);
    DelimiterAfter(c.host, PortText(c), false);
    var s := c.host + PortText(c);
    if c.port != 0 {
      assert s[|c.host| + 1..] == Render(c.port);
      assert s[..|c.host|] == c.host;
    } else {
      assert s == c.host;
    }
  }

  lemma TailWithHost(k: Config, front: string, rest: string)
    requires NoDelimiter(front, true)
    ensures FirstDelimiter(front + ("%" + rest), true) == |front|
    ensures ParseTail(k, front + ("%" + rest)) ==
      match ParseHost(rest)
      case Ok((host, port)) => Ok(k.(host := Some(host), port := port))
      case Err(e) => Err(e)
  {
    DelimiterAfter(front, "%" + rest, true);
    assert (front + ("%" + rest))[|front| + 1..] == rest;
  }

  lemma TailWithPort(k: Config, front: string, port: nat)
    requires NoDelimiter(front, true) && port <= INT_MAX
    ensures FirstDelimiter(front + (":" + Render(port)), true) == |front|
    ensures ParseTail(k, front + (":" + Render(port))) == Ok(k.(port := Some(port)))
  {
    PortRoundTrip(port);
    DelimiterAfter(front, ":" + Render(port), true);
    assert (front + (":" + Render(port)))[|front| + 1..] == Render(port);
  }

  lemma TailWithNothing(k: Config, front: string)
    requires NoDelimiter(front, true)
    ensures FirstDelimiter(front + "", true) == |front| && ParseTail(k, front + "") == Ok(k)
  {
    DelimiterAfter(front, "", true);
  }

  lemma HostPortForms(c: Source)
    ensures c.host != "" ==> HostPort(c) == "%" + (c.host + PortText(c))
    ensures c.host == "" && c.port != 0 ==> HostPort(c) == ":" + Render(c.port)
    ensures c.host == "" && c.port == 0 ==> HostPort(c) == ""
  {
  }

  /** `front` is what precedes the host: nothing, or the database name. */
  lemma TailRoundTrip(c: Source, k: Config, front: string)
    requires NoDelimiter(front, true) && NoDelimiter(c.host, false) && c.port <= INT_MAX
    requires k.host == None && k.port == None
    ensures FirstDelimiter(front + HostPort(c), true) == |front|
    ensures ParseTail(k, front + HostPort(c)) == Ok(k.(host := NonEmpty(c.host), port := PortOf(c)))
  {
    hide ParseTail, ParseHost, FirstDelimiter, Render;
    HostPortForms(c);
    if c.host != "" {
      HostRoundTrip(c);
      TailWithHost(k, front, c.host + PortText(c));
    } else if c.port != 0 {
      TailWithPort(k, front, c.port);
    } else {
      TailWithNothing(k, front);
    }
  }

  function LocationHash(c: Source): Config {
    DbConfig(c.db, NonEmpty(c.encoding)).(host := NonEmpty(c.host), port := PortOf(c))
  }

  lemma LocationRoundTrip(c: Source)
    requires FieldsOk(c)
    ensures ParseLocation(Location(c)) == Ok(LocationHash(c))
  {
    hide ParseTail, ParseLocation, FirstDelimiter;
    if c.encoding == "" {
      PlainLocation(c);
    } else {
      EncodedLocation(c.db, c.encoding, HostPort(c));
      TailRoundTrip(c, DbConfig(c.db, Some(c.encoding)), "");
      assert "" + HostPort(c) == HostPort(c);
      assert Location(c) == c.db + "(" + c.encoding + ")" + HostPort(c);
    }
  }

  lemma PlainLocation(c: Source)
    requires '(' !in c.db && '(' !in c.host && c.encoding == ""
    requires NoDelimiter(c.db, true) && NoDelimiter(c.host, false) && c.port <= INT_MAX
    ensures ParseLocation(Location(c)) == Ok(LocationHash(c))
  {
    hide ParseTail, FirstDelimiter, IndexOf, NoDelimiter, HostPort;
    var s := Location(c);
    NoParenthesis(c);
    FirstIs(s, '(', |s|);
    TailRoundTrip(c, DbConfig(c.db, None), c.db);
    assert s == c.db + HostPort(c);
    assert s[..|c.db|] == c.db;
  }

  lemma EncodedLocation(db: string, encoding: string, tail: string)
    requires '(' !in db && ')' !in encoding
    ensures ParseLocation(db + "(" + encoding + ")" + tail) == ParseTail(DbConfig(db, Some(encoding)), tail)
  {
    hide ParseTail;
    var s := db + "(" + encoding + ")" + tail;
    var open, close := |db|, |db| + 1 + |encoding|;
    assert s[..open] == db && s[open + 1..close] == encoding && s[close + 1..] == tail;
    FirstIs(s, '(', open);
    assert s[open..][..close - open] == "(" + encoding;
    FirstIs(s[open..], ')', close - open);
  }

  lemma NoParenthesis(c: Source)
    requires '(' !in c.db && '(' !in c.host && c.encoding == ""
    ensures '(' !in Location(c)
  {
    assert forall i :: 0 <= i < |Render(c.port)| ==> IsDigit(Render(c.port)[i]);
  }

  /** A character that is neither in a field nor printed by the grammar. */
  lemma NotInLocation(c: Source, ch: char)
    requires ch !in c.db + c.encoding + c.host
    requires ch != '(' && ch != ')' && ch != '%' && ch != ':' && !IsDigit(ch)
    ensures ch !in Location(c)
  {
    assert forall f: string :: f == c.db || f == c.encoding || f == c.host ==> ch !in f by {
      var all := c.db + c.encoding + c.host;
      assert forall i :: 0 <= i < |c.db| ==> all[i] == c.db[i];
      assert forall i :: 0 <= i < |c.encoding| ==> all[|c.db| + i] == c.encoding[i];
      assert forall i :: 0 <= i < |c.host| ==> all[|c.db + c.encoding| + i] == c.host[i];
    }
    assert forall i :: 0 <= i < |Render(c.port)| ==> IsDigit(Render(c.port)[i]);
  }

  lemma NoClosingBrace(c: Source)
    requires '}' !in c.driver + c.user + c.pass + c.db + c.encoding + c.host
    ensures '}' !in c.driver && '}' !in c.user && '}' !in c.pass && '}' !in c.db + c.encoding + c.host
  {
    var all := c.driver + c.user + c.pass + c.db + c.encoding + c.host;
    var a, b := |c.driver|, |c.driver + c.user|;
    assert all == c.driver + c.user + c.pass + (c.db + c.encoding + c.host);
  }

  lemma WithPassword(user: string, pass: string, location: string)
    requires '/' !in user && user != "@" && user != "@." && '}' !in pass && '}' !in location
    ensures SplitUser(user + "/" + (pass + "@" + location)) == (Some(user), pass + "@" + location)
  {
    var rest := pass + "@" + location;
    var s := user + "/" + rest;
    var p := |user|;
    assert s[..p] == user && s[p + 1..] == rest;
    FirstIs(s, '/', p);
  }

  lemma WithoutPassword(c: Source)
    requires FieldsOk(c) && c.pass == ""
    ensures SplitUser(c.user + "@" + Location(c)) == (None, c.user + "@" + Location(c))
  {
    hide Location;
    var location := Location(c);
    var s := c.user + "@" + location;
    if c.user == "" && StartsPath(c.db) {
      LocationStart(c);
      if "/" <= c.db {
        assert location[0] == '/';
        FirstIs(s, '/', 1);
      } else {
        assert s[2] == '/' && s[..2] == "@.";
        FirstIs(s, '/', 2);
      }
    } else {
      NotInLocation(c, '/');
      FirstIs(s, '/', |s|);
    }
  }

  lemma LocationStart(c: Source)
    ensures c.db <= Location(c)
  {
  }

  lemma SplitAtLast(before: string, location: string)
    requires '@' !in location
    ensures var s := before + "@" + location;
      LastIndexOf(s, '@') == |before| && s[..|before|] == before && s[|before| + 1..] == location
  {
    var s := before + "@" + location;
    assert s[|before| + 1..] == location;
    LastIs(s, '@', |before|);
  }

  function LoginHash(c: Source): Config {
    LocationHash(c).(user := NonEmpty(c.user), pass := NonEmpty(c.pass))
  }

  lemma LoginRoundTrip(c: Source)
    requires FieldsOk(c)
    ensures ParseLogin(Login(c) + "@" + Location(c)) == Ok(LoginHash(c))
  {
    hide SplitUser, ParseLocation, Location, LastIndexOf;
    var location := Location(c);
    var s := Login(c) + "@" + location;
    LocationRoundTrip(c);
    NotInLocation(c, '@');
    if c.pass != "" {
      NoClosingBrace(c);
      NotInLocation(c, '}');
      WithPassword(c.user, c.pass, location);
      assert s == c.user + "/" + (c.pass + "@" + location);
      SplitAtLast(c.pass, location);
    } else {
      WithoutPassword(c);
      assert s == c.user + "@" + location;
      SplitAtLast(c.user, location);
    }
  }

  lemma DriverRoundTrip(driver: string, rest: string)
    requires ':' !in driver && !HasAny(driver, "@/%")
    ensures SplitDriver(driver + ":" + rest) == (Some(driver), rest)
  {
    var s := driver + ":" + rest;
    assert s[..|driver|] == driver && s[|driver| + 1..] == rest;
    FirstIs(s, ':', |driver|);
  }

  /** The configuration without options; the database name is set even if it is empty. */
  lemma BodyRoundTrip(c: Source, options: Option<OptionMap>)
    requires FieldsOk(c) && (c.connected || c.db != "")
    ensures ParseBody(Body(c), options) == Ok(LoginHash(c).(driver := Some(c.driver), options := options))
  {
    hide SplitDriver, ParseLogin, Login, Location;
    var rest := Login(c) + "@" + Location(c);
    LoginRoundTrip(c);
    DriverRoundTrip(c.driver, rest);
    assert Body(c) == c.driver + ":" + rest;
  }

  lemma LocationEnd(c: Source)
    requires TailOk(c) && '}' !in c.db + c.encoding + c.host && Location(c) != ""
    ensures var l := Location(c)[|Location(c)| - 1]; !IsBlank(l) && l != '}'
  {
    NotInLocation(c, '}');
    assert Location(c)[|Location(c)| - 1] in Location(c);
    if c.port != 0 {
      var r := Render(c.port);
      assert Location(c)[|Location(c)| - 1] == r[|r| - 1] && IsDigit(r[|r| - 1]);
    }
  }

  lemma BodyEnds(c: Source)
    requires FieldsOk(c) && (c.connected || c.db != "")
    ensures |Body(c)| >= 2 && !IsBlank(Body(c)[0])
    ensures !IsBlank(Body(c)[|Body(c)| - 1]) && Body(c)[|Body(c)| - 1] != '}'
  {
    hide Location, Login;
    NoClosingBrace(c);
    if Location(c) != "" {
      LocationEnd(c);
    }
    assert Body(c) == c.driver + ":" + Login(c) + "@" + Location(c);
  }

  lemma {:induction false} JoinNoBrace(settings: seq<Setting>)
    requires forall i :: 0 <= i < |settings| ==> SettingOk(settings[i])
    ensures '{' !in Join(settings)
  {
    if |settings| > 1 {
      JoinNoBrace(settings[1..]);
    }
  }

  lemma SplitBlock(body: string, text: string)
    requires '{' !in text && body + text != ""
    ensures SplitOptions(body + ("{" + text + "}")) == (body, Some(text))
  {
    var s := body + ("{" + text + "}");
    assert s[|body| + 1..] == text + "}";
    LastIs(s, '{', |body|);
    assert s[..|body|] == body && s[|body| + 1..|s| - 1] == text;
  }

  function FullHash(c: Source, settings: seq<Setting>): Config {
    LoginHash(c).(driver := Some(c.driver), options := if settings == [] then None else Some(MapOf(settings)))
  }

  lemma SettingsRoundTrip(c: Source, settings: seq<Setting>)
    requires FieldsOk(c) && (c.connected || c.db != "") && SettingsOk(settings)
    ensures Parse(Body(c) + OptionBlock(settings)) == Ok(FullHash(c, settings))
  {
    hide Body, ParseBody, SplitOptions, ParseOptions, Join, MapOf;
    BodyEnds(c);
    var s := Body(c) + OptionBlock(settings);
    TrimOfTrimmed(s);
    if settings == [] {
      BodyRoundTrip(c, None);
      assert s == Body(c);
      NoBlock(s);
    } else {
      JoinNoBrace(settings);
      SplitBlock(Body(c), Join(settings));
      OptionsRoundTrip(settings, map[]);
      assert map[] + MapOf(settings) == MapOf(settings);
      BodyRoundTrip(c, Some(MapOf(settings)));
    }
  }

  lemma NoBlock(s: string)
    requires s != "" && s[|s| - 1] != '}'
    ensures SplitOptions(s) == (s, None)
  {
  }

  /** Print, then parse: every field comes back, and so does every option, values rendered as text.  A
      database name that is empty comes back as an empty name, where getConfigHash() has none. */
  lemma PrintThenParse(c: Source)
    requires FieldsOk(c) && (c.connected || c.db != "") && SettingsOk(Settings(c.opts))
    ensures Parse(ConfigString(c)) == Ok(ConfigHash(c).(db := Some(c.db)))
    ensures Parse(ConfigString(c)) == Ok(ConfigHash(c)) <==> c.db != ""
  {
    SettingsRoundTrip(c, Settings(c.opts));
  }

  /** Hence two datasources with the same configuration string have the same configuration. */
  lemma ConfigStringIsInjective(c: Source, d: Source)
    requires FieldsOk(c) && (c.connected || c.db != "") && SettingsOk(Settings(c.opts))
    requires FieldsOk(d) && (d.connected || d.db != "") && SettingsOk(Settings(d.opts))
    requires ConfigString(c) == ConfigString(d)
    ensures ConfigHash(c) == ConfigHash(d)
  {
    PrintThenParse(c);
    PrintThenParse(d);
  }

  lemma {:induction false} JoinConcat(a: seq<Setting>, b: seq<Setting>)
    requires a != [] && b != []
    ensures Join(a + b) == Join(a) + "," + Join(b)
  {
    if |a| == 1 {
      assert (a + b)[1..] == b;
    } else {
      assert (a + b)[1..] == a[1..] + b;
      JoinConcat(a[1..], b);
    }
  }

  lemma {:induction false} MapOfConcat(a: seq<Setting>, b: seq<Setting>)
    ensures MapOf(a + b) == MapOf(a) + MapOf(b)
  {
    if b == [] {
      assert a + b == a;
    } else {
      var n := |b| - 1;
      assert (a + b)[..|a| + n] == a + b[..n];
      MapOfConcat(a, b[..n]);
    }
  }

  /** The pool's string is the string of the connection with two more settings, block or no block. */
  lemma PoolStringForm(c: Source, min: nat, max: nat)
    requires FieldsOk(c) && (c.connected || c.db != "")
    ensures ConfigString(c) != ""
    ensures PoolConfigString(ConfigString(c), min, max) ==
      Body(c) + OptionBlock(Settings(c.opts) + PoolSettings(min, max))
  {
    hide Body, Settings, Join, PoolSuffix, FieldsOk;
    BodyEnds(c);
    var body, settings, more := Body(c), Settings(c.opts), PoolSettings(min, max);
    PoolText(min, max);
    if settings == [] {
      assert settings + more == more;
      assert ConfigString(c) == body;
      AddBlock(body, min, max);
    } else {
      JoinConcat(settings, more);
      ExtendBlock(body, Join(settings), min, max);
    }
  }

  lemma AddBlock(body: string, min: nat, max: nat)
    requires body != "" && body[|body| - 1] != '}'
    ensures PoolConfigString(body, min, max) == body + ("{" + PoolSuffix(min, max) + "}")
  {
    hide PoolSuffix;
    assert ("," + PoolSuffix(min, max))[1..] == PoolSuffix(min, max);
  }

  lemma ExtendBlock(body: string, text: string, min: nat, max: nat)
    ensures PoolConfigString(body + ("{" + text + "}"), min, max) ==
      body + ("{" + (text + "," + PoolSuffix(min, max)) + "}")
  {
    hide PoolSuffix;
    var str := body + ("{" + text + "}");
    assert str[|str| - 1] == '}' && str[..|str| - 1] == body + ("{" + text);
    assert body + ("{" + text) + ("," + PoolSuffix(min, max)) + "}" ==
      body + ("{" + (text + "," + PoolSuffix(min, max)) + "}");
  }

  lemma PoolText(min: nat, max: nat)
    ensures Join(PoolSettings(min, max)) == PoolSuffix(min, max)
  {
    hide Render;
    var more := PoolSettings(min, max);
    assert more[1..] == [more[1]];
    ItemText("min", "=", Render(min), "min=");
    ItemText("max", "=", Render(max), "max=");
  }

  lemma ItemText(key: string, eq: string, text: string, start: string)
    requires key + eq == start
    ensures key + eq + text == start + text
  {
  }

  /** The pool's configuration string parses back to the connection's configuration plus min and max. */
  lemma PoolPrintThenParse(c: Source, min: nat, max: nat)
    requires FieldsOk(c) && (c.connected || c.db != "") && SettingsOk(Settings(c.opts))
    requires forall o :: o in Settings(c.opts) ==> o.0 != "min" && o.0 != "max"
    ensures ConfigString(c) != ""
    ensures Parse(PoolConfigString(ConfigString(c), min, max)) ==
      Ok(ConfigHash(c).(db := Some(c.db), options := Some(
        MapOf(Settings(c.opts)) + map["min" := Value(Render(min)), "max" := Value(Render(max))])))
  {
    hide Body, Settings, Parse, OptionBlock, PoolConfigString, ConfigString;
    var settings, more := Settings(c.opts), PoolSettings(min, max);
    PoolStringForm(c, min, max);
    PoolSettingsOk(settings, min, max);
    SettingsRoundTrip(c, settings + more);
    MapOfConcat(settings, more);
    assert more[..1] == [more[0]] && more[..1][..0] == [];
    assert MapOf(more[..1]) == map["min" := Value(Render(min))];
    assert MapOf(more) == map["min" := Value(Render(min)), "max" := Value(Render(max))];
  }

  lemma PoolSettingsOk(settings: seq<Setting>, min: nat, max: nat)
    requires SettingsOk(settings)
    requires forall o :: o in settings ==> o.0 != "min" && o.0 != "max"
    ensures SettingsOk(settings + PoolSettings(min, max))
  {
    DigitsOk("min", Render(min));
    DigitsOk("max", Render(max));
    var all := settings + PoolSettings(min, max);
    forall i, j | 0 <= i < j < |all|
      ensures all[i].0 != all[j].0
    {
      if i < |settings| <= j {
        assert all[i] in settings;
      } else if |settings| <= i {
        assert all[i].0[1] == 'i' && all[j].0[1] == 'a';
      }
    }
  }

  lemma DigitsOk(key: string, digits: string)
    requires key == "min" || key == "max"
    requires digits != "" && AllDigits(digits)
    ensures SettingOk((key, Value(digits)))
  {
  }
}
