/**
 * pkg/gohandlr/gohandlr.go: a Config of codec maps and hooks, built by
 * applying option closures to a copy of the package-level DefaultConfig, and
 * four handler wrappers with a fixed status mapping.
 *
 * A codec function is known by an identity; what it does with a request or
 * a value is given by the uninterpreted functions of a Codecs bundle.  The two
 * maps of a Config are objects: copying a Config (as NewConfig does with
 * DefaultConfig) copies the references, so a map write through the copy is
 * a write to the map DefaultConfig holds.
 */
module GoHandlr {
  import opened Wrappers
  import opened Errors
  import Http
  import Accept

  // The package's own codec functions, by identity.
  const DefaultUnMarshalJSON: nat := 0
  const DefaultMarshalJSON: nat := 1
  const EmptyValidatorFunc: nat := 2
  const EmptyParameterReaderFunc: nat := 3

  /** A Go map from content type to codec function. */
  class CodecTable {
    var entries: map<string, nat>

    constructor (m: map<string, nat>)
      ensures entries == m
    {
      entries := m;
    }
  }

  /** Config; a null table is a nil map, None a nil function. */
  datatype Config = Config(
    unMarshaler: CodecTable?,
    marshaler: CodecTable?,
    validate: Option<nat>,
    parameterReader: Option<nat>)

  function Tables(c: Config): set<CodecTable>
  {
    (if c.unMarshaler == null then {} else {c.unMarshaler})
    + (if c.marshaler == null then {} else {c.marshaler})
  }

  /** A codec step on the request value v: the value it leaves behind and its error. */
  datatype Step<R> = Step(value: R, err: Option<GoError>)

  /**
   * What the codec functions do, uninterpreted: the parameter reader and the
   * unmarshaler update the request value (of type R) and may fail, the
   * validator inspects it, the marshaler writes a response value (of type V).
   */
  datatype Codecs<!R, !V> = Codecs(
    readParams: (nat, Http.Request, R) -> Step<R>,
    unmarshal: (nat, Http.Request, R) -> Step<R>,
    validate: (nat, R) -> Option<GoError>,
    marshal: (nat, V) -> Option<GoError>)

  // ------------------------------------------------------------------ options

  /** The With* options of the package (other user-written closures are not modelled). */
  datatype ConfigOption =
    | WithConfig(config: Config)
    | WithUnMarshaler(contentType: string, unmarshaller: nat)
    | WithParamsReader(reader: Option<nat>)
    | WithMarshaler(contentType: string, marshaller: nat)
    | WithValidator(validator: Option<nat>)

  /** One write into a map object. */
  datatype MapWrite = MapWrite(table: CodecTable, key: string, codec: nat)

  /** Options applied to a config value: the value and the map writes so far, or a nil-map panic. */
  datatype Applied = Applied(config: Config, writes: seq<MapWrite>) | NilMapPanic(writes: seq<MapWrite>)

  /** One option applied after the earlier writes. */
  function ApplyOption(c: Config, writes: seq<MapWrite>, o: ConfigOption): Applied
  {
    match o
    case WithConfig(cfg) => Applied(cfg, writes)
    case WithUnMarshaler(ct, f) =>
      if c.unMarshaler == null then NilMapPanic(writes)
      else Applied(c, writes + [MapWrite(c.unMarshaler, ct, f)])
    case WithParamsReader(r) => Applied(c.(parameterReader := r), writes)
    case WithMarshaler(ct, f) =>
      if c.marshaler == null then NilMapPanic(writes)
      else Applied(c, writes + [MapWrite(c.marshaler, ct, f)])
    case WithValidator(v) => Applied(c.(validate := v), writes)
  }

  /** The options applied in order, starting from c; a panic ends the sequence. */
  function ApplyAll(c: Config, opts: seq<ConfigOption>): Applied
  {
    if opts == [] then Applied(c, [])
    else
      match ApplyAll(c, opts[..|opts| - 1])
      case NilMapPanic(w) => NilMapPanic(w)
      case Applied(c1, w) => ApplyOption(c1, w, opts[|opts| - 1])
  }

  /** The contents of map t after the writes, starting from m. */
  function Replay(t: CodecTable, m: map<string, nat>, writes: seq<MapWrite>): map<string, nat>
  {
    if writes == [] then m
    else
      var w := writes[|writes| - 1];
      var before := Replay(t, m, writes[..|writes| - 1]);
      if w.table == t then before[w.key := w.codec] else before
  }

  /** The maps reachable from the WithConfig options. */
  function OptionTables(opts: seq<ConfigOption>): set<CodecTable>
  {
    set k, t | 0 <= k < |opts| && opts[k].WithConfig? && t in Tables(opts[k].config) :: t
  }

  /** The first n options applied in order, the form NewConfig's loop keeps. */
  function ApplyPrefix(c: Config, opts: seq<ConfigOption>, n: nat): Applied
    requires n <= |opts|
  {
    if n == 0 then Applied(c, [])
    else
      match ApplyPrefix(c, opts, n - 1)
      case NilMapPanic(w) => NilMapPanic(w)
      case Applied(c1, w) => ApplyOption(c1, w, opts[n - 1])
  }

  lemma {:induction false} ApplyPrefixAll(c: Config, opts: seq<ConfigOption>, n: nat)
    requires n <= |opts|
    ensures ApplyPrefix(c, opts, n) == ApplyAll(c, opts[..n])
  {
    if n > 0 {
      ApplyPrefixAll(c, opts, n - 1);
      assert opts[..n][..n - 1] == opts[..n - 1];
    }
  }

  /** All the options: ApplyPrefix of the whole list is ApplyAll. */
  lemma ApplyPrefixWhole(c: Config, opts: seq<ConfigOption>)
    ensures ApplyPrefix(c, opts, |opts|) == ApplyAll(c, opts)
  {
    ApplyPrefixAll(c, opts, |opts|);
    assert opts[..|opts|] == opts;
  }

  /**
   * A panic within a prefix is the panic of the whole option list; without
   * one, the whole prefix is ApplyAll.
   */
  lemma {:induction false} PanicSticks(c: Config, opts: seq<ConfigOption>, k: nat)
    requires k <= |opts| && (ApplyPrefix(c, opts, k).NilMapPanic? || k == |opts|)
    ensures ApplyAll(c, opts) == ApplyPrefix(c, opts, k)
    decreases |opts| - k
  {
    if k < |opts| {
      PanicSticks(c, opts, k + 1);
    } else {
      ApplyPrefixWhole(c, opts);
    }
  }

  /** The maps of a WithConfig option are among OptionTables. */
  lemma OptionTablesHold(opts: seq<ConfigOption>, k: nat)
    requires k < |opts|
    ensures opts[k].WithConfig? ==> Tables(opts[k].config) <= OptionTables(opts)
  {
    if opts[k].WithConfig? {
      forall t | t in Tables(opts[k].config) ensures t in OptionTables(opts) {
        assert opts[k].WithConfig? && t in Tables(opts[k].config);
      }
    }
  }

  lemma ApplyAllSnoc(c: Config, opts: seq<ConfigOption>, o: ConfigOption)
    ensures ApplyAll(c, opts + [o]) ==
      match ApplyAll(c, opts)
      case NilMapPanic(w) => NilMapPanic(w)
      case Applied(c1, w) => ApplyOption(c1, w, o)
  {
    assert (opts + [o])[..|opts|] == opts;
  }

  /** The package-level DefaultConfig, with its two fresh maps. */
  method NewDefaultConfig() returns (c: Config)
    ensures fresh(c.unMarshaler) && fresh(c.marshaler) && c.unMarshaler != c.marshaler
    ensures c.unMarshaler.entries == map[Http.MimeJson := DefaultUnMarshalJSON, Http.MimeForm := DefaultUnMarshalJSON]
    ensures c.marshaler.entries == map[Http.MimeJson := DefaultMarshalJSON]
    ensures c.validate == Some(EmptyValidatorFunc) && c.parameterReader == Some(EmptyParameterReaderFunc)
  {
    var u := new CodecTable(map[Http.MimeJson := DefaultUnMarshalJSON, Http.MimeForm := DefaultUnMarshalJSON]);
    var m := new CodecTable(map[Http.MimeJson := DefaultMarshalJSON]);
    c := Config(u, m, Some(EmptyValidatorFunc), Some(EmptyParameterReaderFunc));
  }

  /**
   * NewConfig: copy the default config and apply the options to the copy in
   * order.  The copy shares its maps with the default; every map write lands
   * in whichever map object the copy holds at that moment.
   */
  method NewConfig(defaults: Config, options: seq<ConfigOption>) returns (config: Config, panicked: bool)
    modifies Tables(defaults) + OptionTables(options)
    ensures panicked <==> ApplyAll(defaults, options).NilMapPanic?
    ensures !panicked ==> config == ApplyAll(defaults, options).config
    ensures forall t :: t in Tables(defaults) + OptionTables(options) ==>
      t.entries == Replay(t, old(t.entries), ApplyAll(defaults, options).writes)
  {
    ghost var tables := Tables(defaults) + OptionTables(options);
    ghost var initial := map t: CodecTable | t in tables :: old(t.entries);
    var k;
    ghost var writes;
    config, panicked, k, writes := ApplyOptions(defaults, options, tables, initial);
    PanicSticks(defaults, options, k);
  }

  /** The loop of NewConfig: the options in order, until one writes to a nil map. */
  method ApplyOptions(defaults: Config, options: seq<ConfigOption>, ghost tables: set<CodecTable>,
                      ghost initial: map<CodecTable, map<string, nat>>)
    returns (config: Config, panicked: bool, k: nat, ghost writes: seq<MapWrite>)
    requires Built(defaults, options, 0, defaults, false, [], tables, initial)
    modifies tables
    ensures Built(defaults, options, k, config, panicked, writes, tables, initial)
    ensures panicked || k == |options|
  {
    config, panicked := defaults, false;
    writes := [];
    k := 0;
    while k < |options| && !panicked
      invariant Built(defaults, options, k, config, panicked, writes, tables, initial)
    {
      OptionTablesHold(options, k);
      config, panicked, writes := ApplyOptionTo(config, options[k], tables, initial, writes);
      k := k + 1;
    }
  }

  /**
   * NewConfig's loop after k options: the prefix applied so far, every map
   * the config can reach among tables, and the maps replayed from initial.
   */
  ghost predicate Built(defaults: Config, options: seq<ConfigOption>, k: nat, config: Config, panicked: bool,
                        writes: seq<MapWrite>, tables: set<CodecTable>, initial: map<CodecTable, map<string, nat>>)
    reads tables
  {
    k <= |options|
    && ApplyPrefix(defaults, options, k) == (if panicked then NilMapPanic(writes) else Applied(config, writes))
    && Tables(config) <= tables && OptionTables(options) <= tables
    && Holds(tables, initial, writes)
  }

  /** Every map in tables holds its initial contents replayed through the writes. */
  ghost predicate Holds(tables: set<CodecTable>, initial: map<CodecTable, map<string, nat>>, writes: seq<MapWrite>)
    reads tables
  {
    forall t :: t in tables ==> t in initial && t.entries == Replay(t, initial[t], writes)
  }

  /**
   * The body of NewConfig's loop: one option applied to config in place.
   * A map write goes into the map config holds; a nil map panics.
   */
  method ApplyOptionTo(config: Config, o: ConfigOption, ghost tables: set<CodecTable>,
                       ghost initial: map<CodecTable, map<string, nat>>, ghost writes: seq<MapWrite>)
    returns (next: Config, panicked: bool, ghost nextWrites: seq<MapWrite>)
    requires Tables(config) <= tables && (o.WithConfig? ==> Tables(o.config) <= tables)
    requires Holds(tables, initial, writes)
    modifies Tables(config)
    ensures ApplyOption(config, writes, o) == if panicked then NilMapPanic(nextWrites) else Applied(next, nextWrites)
    ensures Tables(next) <= tables && Holds(tables, initial, nextWrites)
  {
    next, panicked, nextWrites := config, false, writes;
    match o {
      case WithConfig(cfg) =>
        next := cfg;
      case WithUnMarshaler(ct, f) =>
        if config.unMarshaler == null {
          return config, true, writes;
        }
        WriteTable(config.unMarshaler, ct, f, tables, initial, writes);
        nextWrites := writes + [MapWrite(config.unMarshaler, ct, f)];
      case WithParamsReader(r) =>
        next := config.(parameterReader := r);
      case WithMarshaler(ct, f) =>
        if config.marshaler == null {
          return config, true, writes;
        }
        WriteTable(config.marshaler, ct, f, tables, initial, writes);
        nextWrites := writes + [MapWrite(config.marshaler, ct, f)];
      case WithValidator(v) =>
        next := config.(validate := v);
    }
  }

  /** m[ct] = f on the map object t. */
  method WriteTable(t: CodecTable, ct: string, f: nat, ghost tables: set<CodecTable>,
                    ghost initial: map<CodecTable, map<string, nat>>, ghost writes: seq<MapWrite>)
    requires t in tables && Holds(tables, initial, writes)
    modifies t
    ensures t.entries == old(t.entries)[ct := f]
    ensures Holds(tables, initial, writes + [MapWrite(t, ct, f)])
  {
    t.entries := t.entries[ct := f];
    assert (writes + [MapWrite(t, ct, f)])[..|writes|] == writes;
  }

  // ------------------------------------------------------------------ properties of the options

  /**
   * Without WithConfig, the built config holds the default's own map objects
   * and every map write goes into one of them: a registration made for one
   * handler is seen by every config built from the default afterwards.
   */
  lemma {:induction false} DefaultMapsShared(c: Config, opts: seq<ConfigOption>)
    requires forall k :: 0 <= k < |opts| ==> !opts[k].WithConfig?
    requires ApplyAll(c, opts).Applied?
    ensures ApplyAll(c, opts).config.unMarshaler == c.unMarshaler
    ensures ApplyAll(c, opts).config.marshaler == c.marshaler
    ensures forall w :: w in ApplyAll(c, opts).writes ==> w.table in Tables(c)
  {
    if opts != [] {
      DefaultMapsShared(c, opts[..|opts| - 1]);
    }
  }

  /** A registration through WithMarshaler lands in the default's marshaler map. */
  lemma MarshalerRegistrationVisible(c: Config, contentType: string, f: nat)
    requires c.marshaler != null
    ensures ApplyAll(c, [WithMarshaler(contentType, f)]) == Applied(c, [MapWrite(c.marshaler, contentType, f)])
    ensures forall m :: Replay(c.marshaler, m, [MapWrite(c.marshaler, contentType, f)]) == m[contentType := f]
  {
    assert [WithMarshaler(contentType, f)][..0] == [];
  }

  /** The same for WithUnMarshaler and the default's unmarshaler map. */
  lemma UnMarshalerRegistrationVisible(c: Config, contentType: string, f: nat)
    requires c.unMarshaler != null
    ensures ApplyAll(c, [WithUnMarshaler(contentType, f)]) == Applied(c, [MapWrite(c.unMarshaler, contentType, f)])
  {
    assert [WithUnMarshaler(contentType, f)][..0] == [];
  }

  /** Options later in the list are applied to the result of the earlier ones. */
  lemma {:induction false} ApplyAllAppend(c: Config, a: seq<ConfigOption>, b: seq<ConfigOption>)
    ensures ApplyAll(c, a + b) ==
      match ApplyAll(c, a)
      case NilMapPanic(w) => NilMapPanic(w)
      case Applied(c1, w) => ApplyFrom(c1, w, b)
  {
    if b == [] {
      assert a + b == a;
    } else {
      assert (a + b)[..|a + b| - 1] == a + b[..|b| - 1];
      ApplyAllAppend(c, a, b[..|b| - 1]);
    }
  }

  /** Options b applied to c after the writes w. */
  function ApplyFrom(c: Config, w: seq<MapWrite>, b: seq<ConfigOption>): Applied
  {
    if b == [] then Applied(c, w)
    else
      match ApplyFrom(c, w, b[..|b| - 1])
      case NilMapPanic(w1) => NilMapPanic(w1)
      case Applied(c1, w1) => ApplyOption(c1, w1, b[|b| - 1])
  }

  lemma {:induction false} ApplyFromWrites(c: Config, w: seq<MapWrite>, b: seq<ConfigOption>)
    ensures ApplyFrom(c, w, b).writes == w + ApplyAll(c, b).writes
    ensures ApplyFrom(c, w, b).Applied? <==> ApplyAll(c, b).Applied?
    ensures ApplyFrom(c, w, b).Applied? ==> ApplyFrom(c, w, b).config == ApplyAll(c, b).config
  {
    if b != [] {
      ApplyFromWrites(c, w, b[..|b| - 1]);
      var init := ApplyAll(c, b[..|b| - 1]);
      if init.Applied? {
        assert (w + init.writes) + [] == w + init.writes;
        match b[|b| - 1]
        case WithUnMarshaler(ct, f) =>
          if init.config.unMarshaler != null {
            assert (w + init.writes) + [MapWrite(init.config.unMarshaler, ct, f)]
              == w + (init.writes + [MapWrite(init.config.unMarshaler, ct, f)]);
          }
        case WithMarshaler(ct, f) =>
          if init.config.marshaler != null {
            assert (w + init.writes) + [MapWrite(init.config.marshaler, ct, f)]
              == w + (init.writes + [MapWrite(init.config.marshaler, ct, f)]);
          }
        case _ =>
      }
    } else {
      assert w + [] == w;
    }
  }

  /**
   * WithConfig replaces everything set so far: the config built is the one
   * the options after it build from its argument.  Map writes made before it
   * are not undone.
   */
  lemma WithConfigResets(c: Config, a: seq<ConfigOption>, cfg: Config, b: seq<ConfigOption>)
    requires ApplyAll(c, a).Applied?
    ensures ApplyAll(c, a + [WithConfig(cfg)] + b).Applied? <==> ApplyAll(cfg, b).Applied?
    ensures ApplyAll(c, a + [WithConfig(cfg)] + b).Applied? ==>
      ApplyAll(c, a + [WithConfig(cfg)] + b).config == ApplyAll(cfg, b).config
    ensures ApplyAll(c, a + [WithConfig(cfg)] + b).writes == ApplyAll(c, a).writes + ApplyAll(cfg, b).writes
  {
    ApplyAllAppend(c, a + [WithConfig(cfg)], b);
    ApplyAllAppend(c, a, [WithConfig(cfg)]);
    assert [WithConfig(cfg)][..0] == [];
    ApplyFromWrites(cfg, ApplyAll(c, a).writes, b);
  }

  /** Of two WithValidator options, the later wins. */
  lemma LaterHookWins(c: Config, a: seq<ConfigOption>, v1: Option<nat>, v2: Option<nat>)
    requires ApplyAll(c, a).Applied?
    ensures ApplyAll(c, a + [WithValidator(v1), WithValidator(v2)]) ==
      Applied(ApplyAll(c, a).config.(validate := v2), ApplyAll(c, a).writes)
  {
    var y := a + [WithValidator(v1)];
    ApplyAllSnoc(c, a, WithValidator(v1));
    ApplyAllSnoc(c, y, WithValidator(v2));
    assert y + [WithValidator(v2)] == a + [WithValidator(v1), WithValidator(v2)];
  }

  /** Of two WithParamsReader options, the later wins. */
  lemma LaterParamsReaderWins(c: Config, a: seq<ConfigOption>, r1: Option<nat>, r2: Option<nat>)
    requires ApplyAll(c, a).Applied?
    ensures ApplyAll(c, a + [WithParamsReader(r1), WithParamsReader(r2)]) ==
      Applied(ApplyAll(c, a).config.(parameterReader := r2), ApplyAll(c, a).writes)
  {
    var y := a + [WithParamsReader(r1)];
    ApplyAllSnoc(c, a, WithParamsReader(r1));
    ApplyAllSnoc(c, y, WithParamsReader(r2));
    assert y + [WithParamsReader(r2)] == a + [WithParamsReader(r1), WithParamsReader(r2)];
  }

  /** A map write after WithConfig of a config with nil maps panics. */
  lemma NilMapWritePanics(c: Config, ct: string, f: nat)
    ensures ApplyAll(c, [WithConfig(Config(null, null, None, None)), WithMarshaler(ct, f)]).NilMapPanic?
    ensures ApplyAll(c, [WithConfig(Config(null, null, None, None)), WithUnMarshaler(ct, f)]).NilMapPanic?
  {
    var x := [WithConfig(Config(null, null, None, None)), WithMarshaler(ct, f)];
    assert x[..1] == [WithConfig(Config(null, null, None, None))] && x[..1][..0] == [];
    var y := [WithConfig(Config(null, null, None, None)), WithUnMarshaler(ct, f)];
    assert y[..1] == x[..1];
  }

  // ------------------------------------------------------------------ reading

  /** Config.ReadParameter: no reader means success with v untouched. */
  function ReadParameter<R, V>(c: Config, req: Http.Request, v: R, codecs: Codecs<R, V>): Step<R>
  {
    if c.parameterReader.None? then Step(v, None) else codecs.readParams(c.parameterReader.value, req, v)
  }

  /**
   * Config.Unmarshal: a nil map, or a Content-Type (an empty one included) with
   * no entry, is success without touching v; otherwise the entry's
   * unmarshaler decides.
   */
  function Unmarshal<R, V>(c: Config, req: Http.Request, v: R, codecs: Codecs<R, V>): Step<R>
    reads c.unMarshaler
  {
    if c.unMarshaler == null then Step(v, None)
    else if req.contentType !in c.unMarshaler.entries then Step(v, None)
    else codecs.unmarshal(c.unMarshaler.entries[req.contentType], req, v)
  }

  /**
   * The result of readRequest: the request value to process, the first
   * wrapped error, or a panic on a nil Validate.
   */
  datatype ReadOutcome<R> = ReadOk(value: R) | ReadFailed(err: GoError) | ValidatePanic

  /**
   * readRequest on the zero value v0: parameters, then body, then validation,
   * each on what the previous step left; the first failure is wrapped.
   */
  function ReadRequest<R, V>(c: Config, req: Http.Request, v0: R, codecs: Codecs<R, V>): ReadOutcome<R>
    reads c.unMarshaler
  {
    var p := ReadParameter(c, req, v0, codecs);
    if p.err.Some? then ReadFailed(Errorf("failed to read parameters: " + p.err.value.Error()))
    else
      var u := Unmarshal(c, req, p.value, codecs);
      if u.err.Some? then ReadFailed(Errorf("failed to unmarshal body: " + u.err.value.Error()))
      else if c.validate.None? then ValidatePanic
      else
        var e := codecs.validate(c.validate.value, u.value);
        if e.Some? then ReadFailed(Errorf("failed to validate request: " + e.value.Error()))
        else ReadOk(u.value)
  }

  /** ReadParameter with a nil reader succeeds with v untouched, whatever the codecs do. */
  lemma ReadParameterSkips<R, V>(c: Config, req: Http.Request, v: R, codecs: Codecs<R, V>,
                                 other: (nat, Http.Request, R) -> Step<R>)
    requires c.parameterReader.None?
    ensures ReadParameter(c, req, v, codecs) == Step(v, None)
    ensures ReadParameter(c, req, v, codecs) == ReadParameter(c, req, v, codecs.(readParams := other))
  {
  }

  /** Unmarshal skips the unmarshaler for a nil map or an unregistered Content-Type. */
  lemma UnmarshalSkips<R, V>(c: Config, req: Http.Request, v: R, codecs: Codecs<R, V>,
                             other: (nat, Http.Request, R) -> Step<R>)
    requires c.unMarshaler == null || req.contentType !in c.unMarshaler.entries
    ensures Unmarshal(c, req, v, codecs) == Step(v, None)
    ensures Unmarshal(c, req, v, codecs) == Unmarshal(c, req, v, codecs.(unmarshal := other))
  {
  }

  /**
   * readRequest stops at the first failure: a parameter error is reported with
   * its prefix whatever the body and validation would do, and a body error
   * whatever validation would do.  On success the value processed is what
   * the unmarshaler left after the parameter reader, and it passed validation.
   */
  lemma ReadRequestOrder<R, V>(c: Config, req: Http.Request, v0: R, codecs: Codecs<R, V>,
                               un: (nat, Http.Request, R) -> Step<R>, va: (nat, R) -> Option<GoError>)
    ensures var p := ReadParameter(c, req, v0, codecs);
      p.err.Some? ==>
        ReadRequest(c, req, v0, codecs) == ReadFailed(Errorf("failed to read parameters: " + p.err.value.Error()))
        && ReadRequest(c, req, v0, codecs) == ReadRequest(c, req, v0, codecs.(unmarshal := un, validate := va))
    ensures var p := ReadParameter(c, req, v0, codecs);
      var u := Unmarshal(c, req, p.value, codecs);
      p.err.None? && u.err.Some? ==>
        ReadRequest(c, req, v0, codecs) == ReadFailed(Errorf("failed to unmarshal body: " + u.err.value.Error()))
        && ReadRequest(c, req, v0, codecs) == ReadRequest(c, req, v0, codecs.(validate := va))
    ensures ReadRequest(c, req, v0, codecs).ReadOk? ==>
      var p := ReadParameter(c, req, v0, codecs);
      var u := Unmarshal(c, req, p.value, codecs);
      p.err.None? && u.err.None? && c.validate.Some? && codecs.validate(c.validate.value, u.value).None?
      && ReadRequest(c, req, v0, codecs).value == u.value
  {
  }

  /**
   * With the package defaults' hooks (EmptyParameterReader, EmptyValidator,
   * both of which do nothing) and a Content-Type with no unmarshaler, the
   * handler processes the zero value.
   */
  lemma DefaultsReadZero<R, V>(c: Config, req: Http.Request, v0: R, codecs: Codecs<R, V>)
    requires c.parameterReader == Some(EmptyParameterReaderFunc) && c.validate == Some(EmptyValidatorFunc)
    requires forall r: Http.Request, v: R :: codecs.readParams(EmptyParameterReaderFunc, r, v) == Step(v, None)
    requires forall v: R :: codecs.validate(EmptyValidatorFunc, v) == None
    requires c.unMarshaler == null || req.contentType !in c.unMarshaler.entries
    ensures ReadRequest(c, req, v0, codecs) == ReadOk(v0)
  {
  }

  // ------------------------------------------------------------------ writing

  /**
   * What Config.Marshal may return: nothing for a nil map; otherwise a key
   * the parsed Accept list accepts, with its marshaler's result, or no key
   * exactly when none is accepted, with the fixed error.
   */
  predicate MarshalOutcome<R, V>(c: Config, req: Http.Request, v: V, codecs: Codecs<R, V>,
                                 contentType: Option<string>, err: Option<GoError>)
    reads c.marshaler
  {
    (c.marshaler == null ==> contentType.None? && err.None?)
    && (contentType.Some? ==>
      c.marshaler != null && contentType.value in c.marshaler.entries
      && Accept.Accepts(Accept.AcceptList(req.accept), contentType.value)
      && err == codecs.marshal(c.marshaler.entries[contentType.value], v))
    && (c.marshaler != null && contentType.None? <==>
      c.marshaler != null && forall k :: k in c.marshaler.entries ==> !Accept.Accepts(Accept.AcceptList(req.accept), k))
    && (c.marshaler != null && contentType.None? ==> err == Some(Errorf("can't write to any of the accepted types")))
  }

  /**
   * Config.Marshal: with a non-nil map, the first key met (Go's map order is
   * unspecified: any key) that the parsed Accept list accepts sets the
   * Content-Type and its marshaler's result is returned.
   */
  method Marshal<R, V>(c: Config, req: Http.Request, v: V, codecs: Codecs<R, V>)
    returns (contentType: Option<string>, err: Option<GoError>)
    ensures MarshalOutcome(c, req, v, codecs, contentType, err)
  {
    if c.marshaler == null {
      return None, None;
    }
    var acceptedTypeList := Accept.ParseAcceptHeader(req.accept);
    var keys := c.marshaler.entries.Keys;
    while keys != {}
      invariant keys <= c.marshaler.entries.Keys
      invariant forall k :: k in c.marshaler.entries && k !in keys ==> !Accept.Accepts(acceptedTypeList, k)
      decreases keys
    {
      var key :| key in keys;
      var ok := Accept.AcceptsType(acceptedTypeList, key);
      if ok {
        return Some(key), codecs.marshal(c.marshaler.entries[key], v);
      }
      keys := keys - {key};
    }
    return None, Some(Errorf("can't write to any of the accepted types"));
  }

  /** The reply after a successful process step, from Marshal's outcome. */
  function MarshalReply<V>(contentType: Option<string>, err: Option<GoError>, v: V): (reply: Http.Reply<V>)
    ensures err.Some? <==> reply.Error?
    ensures reply.Error? ==> reply == Http.Error(Http.StatusInternalServerError, err.value.Error())
    ensures reply.Written? <==> err.None? && contentType.Some?
    ensures reply.Written? ==> reply == Http.Written(contentType.value, v)
  {
    if err.Some? then Http.Error(Http.StatusInternalServerError, err.value.Error())
    else if contentType.Some? then Http.Written(contentType.value, v)
    else Http.Empty
  }

  /**
   * When every accepted key's marshaler succeeds and some key is accepted,
   * whatever key Marshal picks, the reply is written under it.
   */
  lemma MarshalOutcomeWrites<R, V>(c: Config, req: Http.Request, v: V, codecs: Codecs<R, V>,
                                   contentType: Option<string>, err: Option<GoError>, key: string)
    requires c.marshaler != null && key in c.marshaler.entries
    requires Accept.Accepts(Accept.AcceptList(req.accept), key)
    requires forall k :: k in c.marshaler.entries && Accept.Accepts(Accept.AcceptList(req.accept), k) ==>
      codecs.marshal(c.marshaler.entries[k], v).None?
    requires MarshalOutcome(c, req, v, codecs, contentType, err)
    ensures MarshalReply(contentType, err, v) == Http.Written(contentType.value, v)
    ensures contentType.value in c.marshaler.entries && Accept.Accepts(Accept.AcceptList(req.accept), contentType.value)
  {
  }

  /**
   * With the default marshaler map, a request with no Accept header or the
   * bare wildcard has its one key accepted, so Marshal writes with
   * DefaultMarshalJSON; an HTML-only list accepts none of its keys, so
   * Marshal fails with the fixed error.
   */
  lemma DefaultMarshalerChoice(accept: string, marshalers: map<string, nat>)
    requires accept == "" || accept == "*/*"
    requires marshalers == map[Http.MimeJson := DefaultMarshalJSON]
    ensures forall k :: k in marshalers ==> Accept.Accepts(Accept.AcceptList(accept), k)
    ensures forall k :: k in marshalers ==> !Accept.Accepts([Http.MimeHtml], k)
  {
    Accept.DefaultAccepts(accept);
    HtmlRejectsJson([Http.MimeHtml]);
    OnlyKey(marshalers, Http.MimeJson, DefaultMarshalJSON);
  }

  lemma OnlyKey(m: map<string, nat>, key: string, v: nat)
    requires m == map[key := v]
    ensures forall k :: k in m ==> k == key
  {
  }

  lemma HtmlRejectsJson(list: seq<string>)
    requires list == [Http.MimeHtml]
    ensures !Accept.Accepts(list, Http.MimeJson)
  {
    assert !(Http.MimeJson <= list[0]) by { assert Http.MimeJson[0] != list[0][0]; }
  }

  // ------------------------------------------------------------------ the four wrappers (per request)

  /** HandlerNoRequestNoResponse: 500 on a process error, else 204. */
  function HandlerNoRequestNoResponse(req: Http.Request, process: Http.Context -> Option<GoError>): (reply: Http.Reply<()>)
    ensures process(req.context).Some? ==>
      reply == Http.Error(Http.StatusInternalServerError, process(req.context).value.Error())
    ensures process(req.context).None? <==> reply == Http.NoContent
  {
    match process(req.context)
    case Some(e) => Http.Error(Http.StatusInternalServerError, e.Error())
    case None => Http.NoContent
  }

  /** HandlerWithRequestNoResponse: 400 if reading fails, 500 on a process error, else 204. */
  function HandlerWithRequestNoResponse<R, V>(
    c: Config, req: Http.Request, v0: R, codecs: Codecs<R, V>,
    process: (Http.Context, R) -> Option<GoError>): Http.Reply<()>
    reads c.unMarshaler
  {
    match ReadRequest(c, req, v0, codecs)
    case ReadFailed(e) => Http.Error(Http.StatusBadRequest, e.Error())
    case ValidatePanic => Http.Aborted
    case ReadOk(v) =>
      match process(req.context, v)
      case Some(e) => Http.Error(Http.StatusInternalServerError, e.Error())
      case None => Http.NoContent
  }

  /**
   * The no-response wrappers answer 204, 400 or 500 (or panic on a nil
   * Validate): 400 exactly when reading fails, 204 exactly when reading and
   * processing succeed.  The status carried by an error is never consulted.
   */
  lemma NoResponseStatuses<R, V>(
    c: Config, req: Http.Request, v0: R, codecs: Codecs<R, V>,
    process: (Http.Context, R) -> Option<GoError>)
    ensures var r := HandlerWithRequestNoResponse(c, req, v0, codecs, process);
      var read := ReadRequest(c, req, v0, codecs);
      Http.StatusOf(r) in {0, Http.StatusNoContent, Http.StatusBadRequest, Http.StatusInternalServerError}
      && (r == Http.Aborted <==> read == ValidatePanic)
      && (read.ReadFailed? <==> r.Error? && r.status == Http.StatusBadRequest)
      && (read.ReadFailed? ==> r.message == read.err.Error())
      && (r == Http.NoContent <==> read.ReadOk? && process(req.context, read.value).None?)
      && ((read.ReadOk? && process(req.context, read.value).Some?) ==>
            r == Http.Error(Http.StatusInternalServerError, process(req.context, read.value).value.Error()))
  {
  }

  /** HandlerNoRequestWithResponse: 500 on a process error or a marshal error. */
  method HandlerNoRequestWithResponse<R, V>(
    c: Config, req: Http.Request, codecs: Codecs<R, V>,
    process: Http.Context -> Result<V, GoError>) returns (reply: Http.Reply<V>)
    ensures process(req.context).Err? ==>
      reply == Http.Error(Http.StatusInternalServerError, process(req.context).error.Error())
    ensures reply.Error? ==> reply.status == Http.StatusInternalServerError
    ensures reply.Written? ==>
      process(req.context) == Ok(reply.payload) && c.marshaler != null && reply.via in c.marshaler.entries
      && Accept.Accepts(Accept.AcceptList(req.accept), reply.via)
      && codecs.marshal(c.marshaler.entries[reply.via], reply.payload).None?
    ensures (process(req.context).Ok? && c.marshaler != null
      && forall k :: k in c.marshaler.entries ==> !Accept.Accepts(Accept.AcceptList(req.accept), k))
      ==> reply == Http.Error(Http.StatusInternalServerError, "can't write to any of the accepted types")
    ensures reply.Empty? <==> c.marshaler == null && process(req.context).Ok?
    ensures !reply.NoContent? && !reply.Aborted?
    ensures process(req.context).Ok? ==> exists ct, err ::
      MarshalOutcome(c, req, process(req.context).value, codecs, ct, err)
      && reply == MarshalReply(ct, err, process(req.context).value)
  {
    var result := process(req.context);
    if result.Err? {
      return Http.Error(Http.StatusInternalServerError, result.error.Error());
    }
    var contentType, err := Marshal(c, req, result.value, codecs);
    reply := MarshalReply(contentType, err, result.value);
    assert MarshalOutcome(c, req, result.value, codecs, contentType, err) && reply == MarshalReply(contentType, err, result.value);
  }

  /** HandlerWithRequestWithResponse: 400 if reading fails, 500 on a process or marshal error. */
  method HandlerWithRequestWithResponse<R, V>(
    c: Config, req: Http.Request, v0: R, codecs: Codecs<R, V>,
    process: (Http.Context, R) -> Result<V, GoError>) returns (reply: Http.Reply<V>)
    ensures ReadRequest(c, req, v0, codecs).ReadFailed? ==>
      reply == Http.Error(Http.StatusBadRequest, ReadRequest(c, req, v0, codecs).err.Error())
    ensures reply.Error? && reply.status == Http.StatusBadRequest ==> ReadRequest(c, req, v0, codecs).ReadFailed?
    ensures ReadRequest(c, req, v0, codecs) == ValidatePanic <==> reply == Http.Aborted
    ensures ReadRequest(c, req, v0, codecs).ReadOk? && process(req.context, ReadRequest(c, req, v0, codecs).value).Err? ==>
      reply == Http.Error(Http.StatusInternalServerError, process(req.context, ReadRequest(c, req, v0, codecs).value).error.Error())
    ensures reply.Written? ==>
      ReadRequest(c, req, v0, codecs).ReadOk?
      && process(req.context, ReadRequest(c, req, v0, codecs).value) == Ok(reply.payload)
      && c.marshaler != null && reply.via in c.marshaler.entries
      && Accept.Accepts(Accept.AcceptList(req.accept), reply.via)
      && codecs.marshal(c.marshaler.entries[reply.via], reply.payload).None?
    ensures (ReadRequest(c, req, v0, codecs).ReadOk? && process(req.context, ReadRequest(c, req, v0, codecs).value).Ok?
      && c.marshaler != null && forall k :: k in c.marshaler.entries ==> !Accept.Accepts(Accept.AcceptList(req.accept), k))
      ==> reply == Http.Error(Http.StatusInternalServerError, "can't write to any of the accepted types")
    ensures reply.Empty? <==>
      c.marshaler == null && ReadRequest(c, req, v0, codecs).ReadOk?
      && process(req.context, ReadRequest(c, req, v0, codecs).value).Ok?
    ensures !reply.NoContent?
    ensures Http.StatusOf(reply) in {0, Http.StatusOK, Http.StatusBadRequest, Http.StatusInternalServerError}
    ensures ReadRequest(c, req, v0, codecs).ReadOk? && process(req.context, ReadRequest(c, req, v0, codecs).value).Ok? ==>
      exists ct, err ::
        MarshalOutcome(c, req, process(req.context, ReadRequest(c, req, v0, codecs).value).value, codecs, ct, err)
        && reply == MarshalReply(ct, err, process(req.context, ReadRequest(c, req, v0, codecs).value).value)
  {
    var read := ReadRequest(c, req, v0, codecs);
    if read.ReadFailed? {
      return Http.Error(Http.StatusBadRequest, read.err.Error());
    }
    if read.ValidatePanic? {
      return Http.Aborted;
    }
    var result := process(req.context, read.value);
    if result.Err? {
      return Http.Error(Http.StatusInternalServerError, result.error.Error());
    }
    var contentType, err := Marshal(c, req, result.value, codecs);
    reply := MarshalReply(contentType, err, result.value);
    assert MarshalOutcome(c, req, result.value, codecs, contentType, err) && reply == MarshalReply(contentType, err, result.value);
  }
}
