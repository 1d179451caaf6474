/** The API's CORS set-up: the allowed origins come from a comma-separated
    environment variable (pieces stripped, blank pieces dropped); when none
    is configured, a regular expression admits the local development
    origins `http(s)://localhost` and `http(s)://127.0.0.1`, with or without
    a port. Credentials, every method and every header are allowed. */
module Cors {
  import opened Wrappers
  import opened Text

  const Separator: char := ','

  /** The fallback pattern, as passed to the middleware. */
  const LocalOriginPattern := "^https?://(localhost|127\\.0\\.0\\.1)(:\\d+)?$"

  /** Every piece is blank once stripped. */
  predicate AllBlank(pieces: seq<string>) {
    forall j :: 0 <= j < |pieces| ==> AllSpace(pieces[j], Python)
  }

  /** The configured origins of a list of pieces: each stripped, blank ones
      dropped, order kept. */
  function CleanOrigins(pieces: seq<string>): (r: seq<string>)
    ensures |r| <= |pieces|
    ensures AllClean(r)
    ensures r == [] <==> AllBlank(pieces)
    decreases |pieces|
  {
    if |pieces| == 0 then []
    else
      var rest := CleanOrigins(pieces[1..]);
      var origin := PyStrip(pieces[0]);
      StripEmptyIffAllSpace(pieces[0], Python);
      AllBlankCons(pieces);
      if origin == "" then rest
      else
        ConsClean(origin, rest);
        [origin] + rest
  }

  /** Every origin in the list is non-empty and has no surrounding space. */
  predicate AllClean(origins: seq<string>) {
    forall k :: 0 <= k < |origins| ==> origins[k] != "" && NoEdgeSpace(origins[k], Python)
  }

  lemma ConsClean(origin: string, rest: seq<string>)
    requires origin != "" && NoEdgeSpace(origin, Python) && AllClean(rest)
    ensures AllClean([origin] + rest)
  {
    assert forall k :: 1 <= k < |rest| + 1 ==> ([origin] + rest)[k] == rest[k - 1];
  }

  /** A list is blank exactly when its head and its tail are. */
  lemma AllBlankCons(pieces: seq<string>)
    requires |pieces| >= 1
    ensures AllBlank(pieces) <==> AllSpace(pieces[0], Python) && AllBlank(pieces[1..])
  {
    assert forall j :: 1 <= j < |pieces| ==> pieces[j] == pieces[1..][j - 1];
  }

  /** One piece gives its stripped text, or nothing when it is blank. */
  lemma CleanOriginsOne(piece: string)
    ensures CleanOrigins([piece]) == if AllSpace(piece, Python) then [] else [PyStrip(piece)]
  {
    assert [piece][1..] == [];
    StripEmptyIffAllSpace(piece, Python);
  }

  /** Cleaning a concatenation cleans each part, so together with
      `CleanOriginsOne` the result is the stripped non-blank pieces, in
      order. */
  lemma {:induction false} CleanOriginsAppend(a: seq<string>, b: seq<string>)
    ensures CleanOrigins(a + b) == CleanOrigins(a) + CleanOrigins(b)
    decreases |a|
  {
    if |a| == 0 {
      assert a + b == b;
    } else {
      assert (a + b)[0] == a[0] && (a + b)[1..] == a[1..] + b;
      CleanOriginsAppend(a[1..], b);
      if PyStrip(a[0]) != "" {
        assert [PyStrip(a[0])] + (CleanOrigins(a[1..]) + CleanOrigins(b))
          == ([PyStrip(a[0])] + CleanOrigins(a[1..])) + CleanOrigins(b);
      }
    }
  }

  /** `CORS_ALLOW_ORIGINS` read as a list of origins. */
  function ParseOrigins(env: string): (origins: seq<string>)
    ensures forall k :: 0 <= k < |origins| ==> origins[k] != "" && NoEdgeSpace(origins[k], Python)
    ensures origins == [] <==> AllBlank(Split(env, Separator))
  {
    CleanOrigins(Split(env, Separator))
  }

  /** Already clean origins pass through unchanged. */
  lemma {:induction false} CleanOriginsOfClean(origins: seq<string>)
    requires forall k :: 0 <= k < |origins| ==> origins[k] != "" && NoEdgeSpace(origins[k], Python)
    ensures CleanOrigins(origins) == origins
    decreases |origins|
  {
    if |origins| > 0 {
      var o := origins[0];
      assert [] + o + [] == o;
      StripUnique([], o, [], Python);
      CleanOriginsOfClean(origins[1..]);
      assert [o] + origins[1..] == origins;
    }
  }

  /** Writing a list of clean origins into the variable, comma-separated,
      reads back the same list. */
  lemma ParseJoinedOrigins(origins: seq<string>)
    requires |origins| >= 1
    requires forall k :: 0 <= k < |origins| ==>
      origins[k] != "" && NoEdgeSpace(origins[k], Python) && Separator !in origins[k]
    ensures ParseOrigins(Join(origins, Separator)) == origins
  {
    SplitJoin(origins, Separator);
    CleanOriginsOfClean(origins);
  }

  datatype OriginRule = AllowOrigins(origins: seq<string>) | AllowOriginRegex(pattern: string)

  datatype CorsOptions = CorsOptions(
    allowCredentials: bool,
    allowMethods: seq<string>,
    allowHeaders: seq<string>,
    rule: OriginRule)

  /** The middleware's options for a value of `CORS_ALLOW_ORIGINS`. */
  function Configure(env: string): (c: CorsOptions)
    ensures c.allowCredentials && c.allowMethods == ["*"] && c.allowHeaders == ["*"]
    ensures ParseOrigins(env) != [] ==> c.rule == AllowOrigins(ParseOrigins(env))
    ensures ParseOrigins(env) == [] ==> c.rule == AllowOriginRegex(LocalOriginPattern)
  {
    var origins := ParseOrigins(env);
    CorsOptions(true, ["*"], ["*"], if origins != [] then AllowOrigins(origins) else AllowOriginRegex(LocalOriginPattern))
  }

  /** An unset variable (read as "") or one holding only commas and
      whitespace selects the fallback pattern. */
  lemma BlankVariableFallsBack(env: string)
    requires forall i :: 0 <= i < |env| ==> env[i] == Separator || IsPySpace(env[i])
    ensures Configure(env).rule == AllowOriginRegex(LocalOriginPattern)
  {
    SplitOfBlank(env);
  }

  /** Splitting a string of commas and whitespace gives only blank pieces. */
  lemma {:induction false} SplitOfBlank(s: string)
    requires forall i :: 0 <= i < |s| ==> s[i] == Separator || IsPySpace(s[i])
    ensures AllBlank(Split(s, Separator))
    decreases |s|
  {
    if |s| > 0 {
      SplitOfBlank(s[1..]);
      var rest := Split(s[1..], Separator);
      if s[0] != Separator {
        var parts := Split(s, Separator);
        assert parts[0] == [s[0]] + rest[0];
        assert forall j :: 1 <= j < |parts| ==> parts[j] == rest[j];
      }
    }
  }

  // ---------------------------------------------- the local-origin pattern

  datatype Host = Localhost | Loopback {
    function Name(): (n: string)
      ensures |n| == 9
    {
      match this
      case Localhost => "localhost"
      case Loopback => "127.0.0.1"
    }
  }

  /** An origin the fallback pattern admits, by its parts. */
  datatype LocalOrigin = LocalOrigin(secure: bool, host: Host, port: Option<string>)

  predicate IsDigits(s: string) {
    |s| >= 1 && forall i :: 0 <= i < |s| ==> '0' <= s[i] <= '9'
  }

  predicate ValidLocal(o: LocalOrigin) {
    o.port.Some? ==> IsDigits(o.port.value)
  }

  function Scheme(secure: bool): string {
    if secure then "https://" else "http://"
  }

  function PortSuffix(port: Option<string>): string {
    if port.Some? then ":" + port.value else ""
  }

  /** The origin string of the parts. */
  function Render(o: LocalOrigin): string {
    Scheme(o.secure) + o.host.Name() + PortSuffix(o.port)
  }

  function ParsePort(secure: bool, host: Host, s: string): (r: Option<LocalOrigin>)
    ensures r.Some? ==> ValidLocal(r.value) && r.value.secure == secure && r.value.host == host
    ensures r.Some? ==> PortSuffix(r.value.port) == s
  {
    if s == "" then Some(LocalOrigin(secure, host, None))
    else if s[0] == ':' && IsDigits(s[1..]) then
      assert s == ":" + s[1..];
      Some(LocalOrigin(secure, host, Some(s[1..])))
    else None
  }

  function ParseHost(secure: bool, s: string): (r: Option<LocalOrigin>)
    ensures r.Some? ==> ValidLocal(r.value) && r.value.secure == secure
    ensures r.Some? ==> r.value.host.Name() + PortSuffix(r.value.port) == s
  {
    if Localhost.Name() <= s then
      PrefixThenRest(Localhost.Name(), s);
      ParsePort(secure, Localhost, s[9..])
    else if Loopback.Name() <= s then
      PrefixThenRest(Loopback.Name(), s);
      ParsePort(secure, Loopback, s[9..])
    else None
  }

  /** Whether `origin` matches the fallback pattern as a whole, and how. */
  function ParseLocal(origin: string): (r: Option<LocalOrigin>)
    ensures r.Some? ==> ValidLocal(r.value) && Render(r.value) == origin
  {
    if Scheme(true) <= origin then
      PrefixThenRest(Scheme(true), origin);
      var r := ParseHost(true, origin[|Scheme(true)|..]);
      RenderParts(r);
      r
    else if Scheme(false) <= origin then
      PrefixThenRest(Scheme(false), origin);
      var r := ParseHost(false, origin[|Scheme(false)|..]);
      RenderParts(r);
      r
    else None
  }

  /** An origin is its scheme followed by its authority. */
  lemma RenderParts(r: Option<LocalOrigin>)
    ensures r.Some? ==>
      Render(r.value) == Scheme(r.value.secure) + (r.value.host.Name() + PortSuffix(r.value.port))
  {
  }

  /** A string that starts with `prefix` is `prefix` followed by the rest. */
  lemma PrefixThenRest(prefix: string, s: string)
    requires prefix <= s
    ensures s == prefix + s[|prefix|..]
  {
  }

  lemma ParsePortOfSuffix(secure: bool, host: Host, port: Option<string>)
    requires port.Some? ==> IsDigits(port.value)
    ensures ParsePort(secure, host, PortSuffix(port)) == Some(LocalOrigin(secure, host, port))
  {
    if port.Some? {
      var s := PortSuffix(port);
      assert s[0] == ':' && s[1..] == port.value;
    }
  }

  lemma ParseHostOfName(secure: bool, host: Host, port: Option<string>)
    requires port.Some? ==> IsDigits(port.value)
    ensures ParseHost(secure, host.Name() + PortSuffix(port)) == Some(LocalOrigin(secure, host, port))
  {
    var s := host.Name() + PortSuffix(port);
    assert s[..9] == host.Name() && s[9..] == PortSuffix(port);
    ParsePortOfSuffix(secure, host, port);
    if host == Loopback {
      assert s[0] == '1';
      assert !(Localhost.Name() <= s);
    }
  }

  /** Every origin built from valid parts matches, and is read back as
      those parts: together with `ParseLocal`'s contract, the pattern
      admits exactly the rendered local origins. */
  lemma ParseRender(o: LocalOrigin)
    requires ValidLocal(o)
    ensures ParseLocal(Render(o)) == Some(o)
  {
    var rest := o.host.Name() + PortSuffix(o.port);
    RenderParts(Some(o));
    ConcatThenRest(Scheme(o.secure), rest);
    ParseHostOfName(o.secure, o.host, o.port);
    if !o.secure {
      assert Render(o)[4] == ':';
    }
  }

  /** `prefix + rest` starts with `prefix`, and what follows it is `rest`. */
  lemma ConcatThenRest(prefix: string, rest: string)
    ensures prefix <= prefix + rest
    ensures (prefix + rest)[|prefix|..] == rest
  {
  }


  /** The middleware's decision for a request's `Origin`. */
  predicate Allows(c: CorsOptions, origin: string) {
    match c.rule
    case AllowOrigins(origins) => origin in origins
    case AllowOriginRegex(_) => ParseLocal(origin).Some?
  }

  /** With nothing configured, exactly the local development origins are
      allowed; with a list, exactly its members. */
  lemma DefaultAllowsOnlyLocal(env: string, origin: string)
    ensures ParseOrigins(env) == [] ==>
      (Allows(Configure(env), origin) <==> exists o :: ValidLocal(o) && Render(o) == origin)
    ensures ParseOrigins(env) != [] ==>
      (Allows(Configure(env), origin) <==> origin in ParseOrigins(env))
  {
    if exists o :: ValidLocal(o) && Render(o) == origin {
      var o :| ValidLocal(o) && Render(o) == origin;
      ParseRender(o);
    }
  }
}
