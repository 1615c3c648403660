/**
 * internal/config/config.go: the functional-options builder. Each option
 * is a closure that writes some fields of a *Configv2; here an option is a
 * datatype naming the closure and its captured arguments.
 */
module Config {

  /** The three option constructors and what each captures. */
  datatype ConfigOption =
    | ServerOptions(env: string, port: string, maxPayloadSize: int, connStr: string)
    | LoggerOptions(logLevel: int, loggerOutput: string)
    | JWTOptions(secret: string, tokenExpiry: int)

  /** The value of a Configv2's fields (tokenExpiry is a time.Duration in nanoseconds). */
  datatype Settings = Settings(
    logLevel: int,
    maxPayloadSize: int,
    loggerOutput: string,
    env: string,
    listenAddr: string,
    connStr: string,
    secret: string,
    tokenExpiry: int)

  /** &Configv2{}: every field its zero value. */
  const Zero: Settings := Settings(0, 0, "", "", "", "", "", 0)

  /** What running one option closure does to the fields. */
  function ApplyOption(s: Settings, opt: ConfigOption): Settings {
    match opt
    case ServerOptions(env, port, size, conn) =>
      s.(env := env, listenAddr := port, maxPayloadSize := size, connStr := conn)
    case LoggerOptions(level, output) =>
      s.(logLevel := level, loggerOutput := output)
    case JWTOptions(secret, expiry) =>
      s.(secret := secret, tokenExpiry := expiry)
  }

  /** The options run in argument order. */
  function ApplyAll(s: Settings, opts: seq<ConfigOption>): Settings
    decreases |opts|
  {
    if opts == [] then s else ApplyAll(ApplyOption(s, opts[0]), opts[1..])
  }

  class Configv2 {
    var logLevel: int
    var maxPayloadSize: int
    var loggerOutput: string
    var env: string
    var listenAddr: string
    var connStr: string
    var secret: string
    var tokenExpiry: int

    function Current(): Settings
      reads this
    {
      Settings(logLevel, maxPayloadSize, loggerOutput, env, listenAddr, connStr, secret, tokenExpiry)
    }

    constructor ()
      ensures Current() == Zero
    {
      logLevel, maxPayloadSize, loggerOutput := 0, 0, "";
      env, listenAddr, connStr := "", "", "";
      secret, tokenExpiry := "", 0;
    }

    /** opt(c): the option closure writing its fields. */
    method Apply(opt: ConfigOption)
      modifies this
      ensures Current() == ApplyOption(old(Current()), opt)
    {
      match opt
      case ServerOptions(e, port, size, conn) =>
        env := e;
        listenAddr := port;
        maxPayloadSize := size;
        connStr := conn;
      case LoggerOptions(level, output) =>
        logLevel := level;
        loggerOutput := output;
      case JWTOptions(s, expiry) =>
        secret := s;
        tokenExpiry := expiry;
    }
  }

  /** New: allocate a zero config and run every option on it, in order. */
  method New(opts: seq<ConfigOption>) returns (cfg: Configv2)
    ensures fresh(cfg)
    ensures cfg.Current() == ApplyAll(Zero, opts)
  {
    cfg := new Configv2();
    var i := 0;
    while i < |opts|
      invariant 0 <= i <= |opts|
      invariant ApplyAll(cfg.Current(), opts[i..]) == ApplyAll(Zero, opts)
    {
      cfg.Apply(opts[i]);
      assert opts[i..][1..] == opts[i + 1..];
      i := i + 1;
    }
  }

  /** WithServerOptions writes the four server fields and leaves the other four as they were. */
  lemma ServerOptionsWriteOnlyTheirFields(s: Settings, env: string, port: string, size: int, conn: string)
    ensures var r := ApplyOption(s, ServerOptions(env, port, size, conn));
            && r.env == env && r.listenAddr == port && r.maxPayloadSize == size && r.connStr == conn
            && r.logLevel == s.logLevel && r.loggerOutput == s.loggerOutput
            && r.secret == s.secret && r.tokenExpiry == s.tokenExpiry
  {
  }

  /** WithLoggerOptions writes the level and the output and leaves the other six as they were. */
  lemma LoggerOptionsWriteOnlyTheirFields(s: Settings, level: int, output: string)
    ensures var r := ApplyOption(s, LoggerOptions(level, output));
            && r.logLevel == level && r.loggerOutput == output
            && r.env == s.env && r.listenAddr == s.listenAddr && r.maxPayloadSize == s.maxPayloadSize
            && r.connStr == s.connStr && r.secret == s.secret && r.tokenExpiry == s.tokenExpiry
  {
  }

  /** WithJWTOptions writes the secret and the token expiry and leaves the other six as they were. */
  lemma JWTOptionsWriteOnlyTheirFields(s: Settings, secret: string, expiry: int)
    ensures var r := ApplyOption(s, JWTOptions(secret, expiry));
            && r.secret == secret && r.tokenExpiry == expiry
            && r.env == s.env && r.listenAddr == s.listenAddr && r.maxPayloadSize == s.maxPayloadSize
            && r.connStr == s.connStr && r.logLevel == s.logLevel && r.loggerOutput == s.loggerOutput
  {
  }

  /** New() with no options is the all-zero config. */
  lemma NoOptionsGiveZero()
    ensures ApplyAll(Zero, []) == Zero
  {
  }

  /** Running a sequence of options then more is running the first, then the rest on its result. */
  lemma {:induction false} ApplyAllAppend(s: Settings, xs: seq<ConfigOption>, ys: seq<ConfigOption>)
    ensures ApplyAll(s, xs + ys) == ApplyAll(ApplyAll(s, xs), ys)
    decreases |xs|
  {
    if xs == [] {
      assert xs + ys == ys;
    } else {
      assert (xs + ys)[1..] == xs[1..] + ys;
      ApplyAllAppend(ApplyOption(s, xs[0]), xs[1..], ys);
    }
  }

  /** A later option overwrites what an earlier one of the same kind set: the last one wins. */
  lemma LaterOptionOverwrites(s: Settings, opts: seq<ConfigOption>, last: ConfigOption)
    ensures var r := ApplyAll(s, opts + [last]);
            match last
            case ServerOptions(e, p, m, c) => r.env == e && r.listenAddr == p && r.maxPayloadSize == m && r.connStr == c
            case LoggerOptions(l, o) => r.logLevel == l && r.loggerOutput == o
            case JWTOptions(sec, t) => r.secret == sec && r.tokenExpiry == t
  {
    ApplyAllAppend(s, opts, [last]);
  }

  /** Two options of the same kind: only the second one's values remain. */
  lemma SameKindLastWins(s: Settings, a: ConfigOption, b: ConfigOption)
    requires (a.ServerOptions? && b.ServerOptions?) || (a.LoggerOptions? && b.LoggerOptions?)
             || (a.JWTOptions? && b.JWTOptions?)
    ensures ApplyAll(s, [a, b]) == ApplyOption(s, b)
  {
    assert [a, b][1..] == [b];
    assert [b][1..] == [];
    assert ApplyAll(ApplyOption(s, a), [b]) == ApplyAll(ApplyOption(ApplyOption(s, a), b), []);
  }

  /** The three kinds write disjoint fields, so options of different kinds commute. */
  lemma DifferentKindsCommute(s: Settings, a: ConfigOption, b: ConfigOption)
    requires !(a.ServerOptions? && b.ServerOptions?) && !(a.LoggerOptions? && b.LoggerOptions?)
             && !(a.JWTOptions? && b.JWTOptions?)
    ensures ApplyOption(ApplyOption(s, a), b) == ApplyOption(ApplyOption(s, b), a)
  {
  }

  lemma ApplyThree(s: Settings, a: ConfigOption, b: ConfigOption, c: ConfigOption)
    ensures ApplyAll(s, [a, b, c]) == ApplyOption(ApplyOption(ApplyOption(s, a), b), c)
  {
    var sa := ApplyOption(s, a);
    var sb := ApplyOption(sa, b);
    assert [a, b, c][1..] == [b, c];
    assert [b, c][1..] == [c];
    assert [c][1..] == [];
    assert ApplyAll(sb, [c]) == ApplyAll(ApplyOption(sb, c), []);
    assert ApplyAll(sa, [b, c]) == ApplyAll(sb, [c]);
  }

  /** One option of each kind, in any of the six orders, builds the same config. */
  lemma OneOfEachInAnyOrder(srv: ConfigOption, log: ConfigOption, jwt: ConfigOption)
    requires srv.ServerOptions? && log.LoggerOptions? && jwt.JWTOptions?
    ensures var r := ApplyAll(Zero, [srv, log, jwt]);
            && ApplyAll(Zero, [srv, jwt, log]) == r
            && ApplyAll(Zero, [log, srv, jwt]) == r
            && ApplyAll(Zero, [log, jwt, srv]) == r
            && ApplyAll(Zero, [jwt, srv, log]) == r
            && ApplyAll(Zero, [jwt, log, srv]) == r
    ensures ApplyAll(Zero, [srv, log, jwt]) ==
              Settings(log.logLevel, srv.maxPayloadSize, log.loggerOutput, srv.env, srv.port, srv.connStr,
                       jwt.secret, jwt.tokenExpiry)
  {
    ApplyThree(Zero, srv, log, jwt);
    ApplyThree(Zero, srv, jwt, log);
    ApplyThree(Zero, log, srv, jwt);
    ApplyThree(Zero, log, jwt, srv);
    ApplyThree(Zero, jwt, srv, log);
    ApplyThree(Zero, jwt, log, srv);
  }
}
