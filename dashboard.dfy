/** The dashboard's configuration panel: the page's state object, the decoding of the bot's
    configuration into it when the page loads, the request body built back from it when the
    user saves, and the update an input event makes. The DOM (rendering, showing and hiding
    controls, notifications) and `fetch` are outside the model; `show` stands for
    `Number.prototype.toString` on numbers that are not integers. */
module Dashboard {
  import opened Js
  import opened Server

  // ---------------------------------------------------------------------------------------
  // Spelling numbers
  // ---------------------------------------------------------------------------------------

  /** `String(x)` for a finite number: integers are spelled exactly, other numbers by `show`. */
  function NumberText(x: real, show: real -> string): string
  {
    if x == x.Floor as real then
      if x >= 0.0 then NatToString(x.Floor) else "-" + NatToString(-x.Floor)
    else show(x)
  }

  /** The text a template literal `${v}` inserts. */
  function ValText(v: Val, show: real -> string): string
  {
    match v
    case Undefined => "undefined"
    case Null => "null"
    case Bool(b) => if b then "true" else "false"
    case Num(n) => NumberText(n, show)
    case NaN => "NaN"
    case Str(s) => s
  }

  /** `getPercentValue`: a number spelled with more than five characters is rounded to three
      decimals; a shorter one is kept as it is. */
  function GetPercentValue(x: real, show: real -> string): real
  {
    if |NumberText(x, show)| > 5 then ToFixed(x, 3) else x
  }

  /** The value moves by at most half a thousandth and keeps its sign. */
  lemma GetPercentValueClose(x: real, show: real -> string)
    ensures |NumberText(x, show)| <= 5 ==> GetPercentValue(x, show) == x
    ensures Abs(GetPercentValue(x, show) - x) <= HalfUnit(3)
    ensures x >= 0.0 ==> GetPercentValue(x, show) >= 0.0
    ensures x <= 0.0 ==> GetPercentValue(x, show) <= 0.0
  {
    ToFixedClose(x, 3);
  }

  /** Applying it to its own result changes nothing. */
  lemma GetPercentValueIdempotent(x: real, show: real -> string)
    ensures GetPercentValue(GetPercentValue(x, show), show) == GetPercentValue(x, show)
  {
    if |NumberText(x, show)| > 5 {
      ToFixedIdempotent(x, 3);
    }
  }

  /** Integers from -9999 to 99999 are spelled in at most five characters and are kept. */
  lemma SmallIntegersKept(n: int, show: real -> string)
    requires -9999 <= n <= 99999
    ensures GetPercentValue(n as real, show) == n as real
  {
    assert (n as real).Floor == n;
    assert Pow10(4) == 10000;
    if n >= 0 {
      NatToStringLength(n, 5);
    } else {
      NatToStringLength(-n, 4);
    }
  }

  // ---------------------------------------------------------------------------------------
  // Objects rebuilt key by key
  // ---------------------------------------------------------------------------------------

  /** An object built by assigning, key by key in `d`'s order, the value `f` gives for each
      entry: what `reduce` with a spread and `forEach` with assignments both build. */
  function Rebuilt<V>(d: Dict<V>, f: (string, V) -> Val): Dict<Val>
  {
    if d == [] then []
    else
      var last := d[|d| - 1];
      Put(Rebuilt(d[..|d| - 1], f), last.0, f(last.0, last.1))
  }

  /** `r` has `d`'s keys in `d`'s positions, each holding `f` of its old entry. */
  ghost predicate Mirrors<V>(r: Dict<Val>, d: Dict<V>, f: (string, V) -> Val)
  {
    |r| == |d| && forall i :: 0 <= i < |d| ==> r[i] == (d[i].0, f(d[i].0, d[i].1))
  }

  /** From an object with unique keys it keeps every key in its place. */
  lemma {:induction false} RebuiltShape<V>(d: Dict<V>, f: (string, V) -> Val)
    requires UniqueKeys(d)
    ensures Mirrors(Rebuilt(d, f), d, f)
    decreases |d|
  {
    if d != [] {
      var p, last := d[..|d| - 1], d[|d| - 1];
      LastKeyIsNew(d, p);
      RebuiltShape(p, f);
      var q := Rebuilt(p, f);
      MirroredKeys(q, p, f, last.0);
      PutNewKey(q, last.0, f(last.0, last.1));
      MirrorsAppend(q, p, f, last);
      assert p + [last] == d;
    }
  }

  /** Dropping the last entry keeps the keys unique, and the last key is not among the rest. */
  lemma LastKeyIsNew<V>(d: Dict<V>, p: Dict<V>)
    requires UniqueKeys(d) && d != [] && p == d[..|d| - 1]
    ensures UniqueKeys(p)
    ensures forall i :: 0 <= i < |p| ==> p[i].0 != d[|d| - 1].0
  {
    assert forall i :: 0 <= i < |p| ==> p[i] == d[i];
  }

  lemma MirroredKeys<V>(r: Dict<Val>, d: Dict<V>, f: (string, V) -> Val, k: string)
    requires Mirrors(r, d, f) && forall i :: 0 <= i < |d| ==> d[i].0 != k
    ensures k !in Keys(r)
  {
    assert forall i :: 0 <= i < |r| ==> r[i].0 != k;
  }

  lemma MirrorsAppend<V>(r: Dict<Val>, d: Dict<V>, f: (string, V) -> Val, e: (string, V))
    requires Mirrors(r, d, f)
    ensures Mirrors(r + [(e.0, f(e.0, e.1))], d + [e], f)
  {
    var r', d' := r + [(e.0, f(e.0, e.1))], d + [e];
    forall i | 0 <= i < |d'| ensures r'[i] == (d'[i].0, f(d'[i].0, d'[i].1)) {
      if i < |d| {
        assert r'[i] == r[i] && d'[i] == d[i];
      }
    }
  }

  /** Looking a key up in the rebuilt object gives `f` of its old entry, and nothing for a key
      the object did not have. */
  lemma RebuiltGet<V>(d: Dict<V>, f: (string, V) -> Val, k: string)
    requires UniqueKeys(d)
    ensures Get(Rebuilt(d, f), k) == match Get(d, k) case Some(v) => Some(f(k, v)) case None => None
  {
    var r := Rebuilt(d, f);
    RebuiltShape(d, f);
    assert UniqueKeys(r) by {
      forall i, j | 0 <= i < j < |r| ensures r[i].0 != r[j].0 {
        assert r[i].0 == d[i].0 && r[j].0 == d[j].0;
      }
    }
    if k in Keys(d) {
      var i :| 0 <= i < |d| && d[i].0 == k;
      GetAt(d, i);
      GetAt(r, i);
    } else {
      assert forall i :: 0 <= i < |r| ==> r[i].0 == d[i].0 != k;
    }
  }

  /** `nullifyStateAttributes`: the same keys, in the same order, each holding null. */
  function Nullify<V>(d: Dict<V>): Dict<Val>
  {
    Rebuilt(d, (k: string, v: V) => Null)
  }

  lemma NullifyShape<V>(d: Dict<V>)
    requires UniqueKeys(d)
    ensures |Nullify(d)| == |d|
    ensures forall i :: 0 <= i < |d| ==> Nullify(d)[i] == (d[i].0, Null)
    ensures Keys(Nullify(d)) == Keys(d)
  {
    RebuiltShape(d, (k: string, v: V) => Null);
    var r := Nullify(d);
    forall k ensures k in Keys(r) <==> k in Keys(d) {
      RebuiltGet(d, (k: string, v: V) => Null, k);
    }
  }

  // ---------------------------------------------------------------------------------------
  // The page's state
  // ---------------------------------------------------------------------------------------

  /** The state object the page starts with, in its declared key order. */
  const InitialState: Dict<Val> := [
    ("wakeTime", Num(0.0)), ("fraction", Num(0.0)), ("margin", Num(0.0)), ("stopMargin", Num(0.0)),
    ("walkAway", Num(0.0)), ("maxVwap", Num(0.0)), ("minSlope", Num(0.0)), ("maxVolatility", Num(0.0)),
    ("minLoss", Num(0.0)), ("maxRSI", Num(0.0)), ("minRelVol", Num(0.0)), ("strategy", Str("change")),
    ("isTesting", Str("on")), ("maxOrders", Num(0.0))]

  /** The fields copied unchanged in both directions. */
  predicate IsPassThrough(attr: string)
  {
    attr == "strategy" || attr == "maxOrders" || attr == "minRelVol" || attr == "maxRSI"
  }

  /** The fields shown as percentages: every key that is not special-cased. */
  predicate IsPercentField(attr: string)
  {
    attr != "wakeTime" && attr != "isTesting" && !IsPassThrough(attr)
  }

  predicate IsTimeUnit(c: char) { c == 's' || c == 'm' || c == 'h' }

  predicate StartsWithUnit(rest: string) { rest != [] && IsTimeUnit(rest[0]) }

  /** `+config.wakeTime.match(/(\d+)(s|m|h)/)[1]`; `None` when it throws: a value that is not
      a string has no `match`, and a string without a match gives null, which has no `[1]`. */
  function DecodeWakeTime(v: Val): Option<Val>
  {
    if !v.Str? then None
    else
      match FirstRunBefore(v.s, IsDigit, StartsWithUnit)
      case None => None
      case Some(digits) => Some(ToNumber(Str(digits)))
  }

  /** `getPercentValue(val * 100)`: multiplication coerces with ToNumber, and NaN, spelled
      "NaN", is returned as it is. */
  function Percent(v: Val, show: real -> string): Val
  {
    match ToNumber(v)
    case Num(x) => Num(GetPercentValue(x * 100.0, show))
    case _ => NaN
  }

  /** `val / 100`. */
  function Hundredth(v: Val): Val
  {
    match ToNumber(v)
    case Num(x) => Num(x / 100.0)
    case _ => NaN
  }

  /** What one entry `[attr, val]` of the configuration stores in the state in
      `initializeState`; `None` when the entry throws. */
  function DecodeEntry(attr: string, val: Val, show: real -> string): Option<Val>
  {
    if attr == "wakeTime" then DecodeWakeTime(val)
    else if attr == "isTesting" then Some(Str(if Truthy(val) then "on" else "off"))
    else if IsPassThrough(attr) then Some(val)
    else Some(Percent(val, show))
  }

  /** What one state entry `[attr, val]` puts in the request body in `sendConfig`. */
  function EncodeEntry(attr: string, val: Val, show: real -> string): Val
  {
    if attr == "wakeTime" then Str(ValText(val, show) + "m")
    else if attr == "isTesting" then Bool(val == Str("on"))
    else if IsPassThrough(attr) then val
    else Hundredth(val)
  }

  function Encoder(show: real -> string): (string, Val) -> Val
  {
    (attr: string, val: Val) => EncodeEntry(attr, val, show)
  }

  /** The request body `sendConfig` posts for a state. */
  function Payload(state: Dict<Val>, show: real -> string): Dict<Val>
  {
    Rebuilt(state, Encoder(show))
  }

  /** The state after `initializeState` and whether it ran to the end: the entries are
      applied in order and a throwing entry leaves the earlier updates in place. */
  datatype Init = Init(state: Dict<Val>, completed: bool)

  function Initialized(state: Dict<Val>, config: Dict<Val>, show: real -> string): Init
    decreases |config|
  {
    if config == [] then Init(state, true)
    else
      match DecodeEntry(config[0].0, config[0].1, show)
      case None => Init(state, false)
      case Some(v) => Initialized(Put(state, config[0].0, v), config[1..], show)
  }

  /** What an input event carries: a click on the toggle button, or the text of an input or
      select element. */
  datatype InputEvent = Click | Entry(text: string)

  /** The value `onChange` stores for `attr`: a click flips "on" and "off" (anything else
      becomes "on"); entered text is stored as a number when unary `+` gives one, else as text. */
  function Changed(current: Option<Val>, ev: InputEvent): Val
  {
    match ev
    case Click => if current == Some(Str("on")) then Str("off") else Str("on")
    case Entry(text) =>
      var n := ToNumber(Str(text));
      if !n.NaN? then n else Str(text)
  }

  /** The page: its `state` object and the handlers that read and write it. */
  class Page {
    var state: Dict<Val>

    constructor ()
      ensures state == InitialState
    {
      state := InitialState;
    }

    /** `initializeState`: stores each configuration entry's decoded value under its key;
        answers whether the loop ran to the end rather than throwing. */
    method InitializeState(config: Dict<Val>, show: real -> string) returns (completed: bool)
      modifies this
      ensures Init(state, completed) == Initialized(old(state), config, show)
    {
      var i := 0;
      while i < |config|
        invariant 0 <= i <= |config|
        invariant Initialized(old(state), config, show) == Initialized(state, config[i..], show)
      {
        var attr, val := config[i].0, config[i].1;
        assert config[i..][0] == config[i] && config[i..][1..] == config[i + 1..];
        var decoded := DecodeEntry(attr, val, show);
        if decoded.None? {
          return false;
        }
        state := Put(state, attr, decoded.value);
        i := i + 1;
      }
      return true;
    }

    /** `sendConfig`: the request body, one encoded field per state entry. */
    method SendConfig(show: real -> string) returns (body: Dict<Val>)
      ensures body == Payload(state, show)
    {
      body := [];
      var i := 0;
      while i < |state|
        invariant 0 <= i <= |state|
        invariant body == Rebuilt(state[..i], Encoder(show))
      {
        var attr, val := state[i].0, state[i].1;
        assert state[..i + 1][..i] == state[..i] && state[..i + 1][i] == state[i];
        body := Put(body, attr, EncodeEntry(attr, val, show));
        i := i + 1;
      }
      assert state[..i] == state;
    }

    /** `onChange(attr)` applied to an event: only `state[attr]` changes. */
    method OnChange(attr: string, ev: InputEvent)
      modifies this
      ensures state == Put(old(state), attr, Changed(Get(old(state), attr), ev))
    {
      state := Put(state, attr, Changed(Get(state, attr), ev));
    }
  }

  // ---------------------------------------------------------------------------------------
  // Decoding and encoding, field by field
  // ---------------------------------------------------------------------------------------

  /** `isTesting` comes back as the truthiness of what the bot sent, so a boolean round-trips. */
  lemma IsTestingRoundTrip(v: Val, show: real -> string)
    ensures DecodeEntry("isTesting", v, show).Some?
    ensures EncodeEntry("isTesting", DecodeEntry("isTesting", v, show).value, show) == Bool(Truthy(v))
    ensures v.Bool? ==> EncodeEntry("isTesting", DecodeEntry("isTesting", v, show).value, show) == v
  {
  }

  /** A wake time "N" followed by s, m or h decodes to the number N and is sent back as "Nm":
      minutes round-trip, hours and seconds come back as that many minutes. */
  lemma WakeTimeRoundTrip(n: nat, unit: char, show: real -> string)
    requires IsTimeUnit(unit)
    ensures DecodeEntry("wakeTime", Str(NatToString(n) + [unit]), show) == Some(Num(n as real))
    ensures EncodeEntry("wakeTime", Num(n as real), show) == Str(NatToString(n) + "m")
  {
    var digits := NatToString(n);
    FirstRunOf(digits, [unit], IsDigit, StartsWithUnit);
    DigitStringNumber(digits);
    NatToStringValue(n);
    assert (n as real).Floor == n;
  }

  /** A wake time that is not a string, such as the default number 10, makes the page throw. */
  lemma NumericWakeTimeThrows(x: real, show: real -> string)
    ensures DecodeEntry("wakeTime", Num(x), show) == None
  {
  }

  /** `strategy`, `maxOrders`, `minRelVol` and `maxRSI` come back exactly as they were sent. */
  lemma PassThroughRoundTrip(attr: string, v: Val, show: real -> string)
    requires IsPassThrough(attr)
    ensures DecodeEntry(attr, v, show) == Some(v)
    ensures EncodeEntry(attr, v, show) == v
  {
  }

  /** Any other field is a fraction shown as a percentage: it comes back within half a
      thousandth of a percent of the number it coerces to, and exactly when that percentage is
      spelled in at most five characters. */
  lemma PercentRoundTrip(attr: string, v: Val, x: real, show: real -> string)
    requires IsPercentField(attr) && ToNumber(v) == Num(x)
    ensures var back := EncodeEntry(attr, DecodeEntry(attr, v, show).value, show);
            back.Num? && Abs(back.n - x) <= HalfUnit(3) / 100.0
            && (|NumberText(x * 100.0, show)| <= 5 ==> back == Num(x))
  {
    var y := GetPercentValue(x * 100.0, show);
    PercentDecodes(attr, v, x, show);
    HundredthEncodes(attr, y, show);
    PercentBound(x, y, show);
  }

  lemma PercentBound(x: real, y: real, show: real -> string)
    requires y == GetPercentValue(x * 100.0, show)
    ensures Abs(y / 100.0 - x) <= HalfUnit(3) / 100.0
    ensures |NumberText(x * 100.0, show)| <= 5 ==> y / 100.0 == x
  {
    GetPercentValueClose(x * 100.0, show);
    ScaleDown(y, x, HalfUnit(3));
  }

  lemma PercentDecodes(attr: string, v: Val, x: real, show: real -> string)
    requires IsPercentField(attr) && ToNumber(v) == Num(x)
    ensures DecodeEntry(attr, v, show) == Some(Num(GetPercentValue(x * 100.0, show)))
  {
  }

  lemma HundredthEncodes(attr: string, y: real, show: real -> string)
    requires IsPercentField(attr)
    ensures EncodeEntry(attr, Num(y), show) == Num(y / 100.0)
  {
  }

  lemma ScaleDown(y: real, x: real, h: real)
    requires Abs(y - x * 100.0) <= h
    ensures Abs(y / 100.0 - x) <= h / 100.0
    ensures y == x * 100.0 ==> y / 100.0 == x
  {
  }

  /** A value that does not coerce to a number stays NaN both ways. */
  lemma NonNumericPercent(attr: string, v: Val, show: real -> string)
    requires IsPercentField(attr) && IsNaN(v)
    ensures DecodeEntry(attr, v, show) == Some(NaN)
    ensures EncodeEntry(attr, NaN, show) == NaN
  {
  }

  // ---------------------------------------------------------------------------------------
  // Loading and saving the whole configuration
  // ---------------------------------------------------------------------------------------

  /** An entry throws exactly when it is the wake time and that has no shorthand in it. */
  predicate Throws(attr: string, v: Val)
  {
    attr == "wakeTime" && DecodeWakeTime(v).None?
  }

  lemma ThrowsIffNone(attr: string, v: Val, show: real -> string)
    ensures DecodeEntry(attr, v, show).None? <==> Throws(attr, v)
  {
  }

  /** The load runs to the end exactly when no entry throws. */
  lemma {:induction false} InitializedCompletes(state: Dict<Val>, config: Dict<Val>, show: real -> string)
    ensures Initialized(state, config, show).completed
        <==> forall i :: 0 <= i < |config| ==> !Throws(config[i].0, config[i].1)
    decreases |config|
  {
    if config != [] {
      var d := DecodeEntry(config[0].0, config[0].1, show);
      ThrowsIffNone(config[0].0, config[0].1, show);
      if d.Some? {
        InitializedCompletes(Put(state, config[0].0, d.value), config[1..], show);
        assert forall i :: 1 <= i < |config| ==> config[1..][i - 1] == config[i];
      }
    }
  }

  /** The load keeps the state's keys unique. */
  lemma {:induction false} InitializedKeepsUnique(state: Dict<Val>, config: Dict<Val>, show: real -> string)
    requires UniqueKeys(state)
    ensures UniqueKeys(Initialized(state, config, show).state)
    decreases |config|
  {
    if config != [] {
      var d := DecodeEntry(config[0].0, config[0].1, show);
      if d.Some? {
        PutKeepsUnique(state, config[0].0, d.value);
        InitializedKeepsUnique(Put(state, config[0].0, d.value), config[1..], show);
      }
    }
  }

  /** After a complete load every configuration key holds its decoded value, and every other
      key keeps what it held. */
  lemma {:induction false} InitializedGet(state: Dict<Val>, config: Dict<Val>, show: real -> string)
    requires UniqueKeys(config) && Initialized(state, config, show).completed
    ensures forall i :: 0 <= i < |config| ==>
              Get(Initialized(state, config, show).state, config[i].0) == DecodeEntry(config[i].0, config[i].1, show)
    ensures forall k :: k !in Keys(config) ==> Get(Initialized(state, config, show).state, k) == Get(state, k)
    decreases |config|
  {
    if config != [] {
      var k0, d := config[0].0, DecodeEntry(config[0].0, config[0].1, show);
      var next := Put(state, k0, d.value);
      var rest := config[1..];
      assert UniqueKeys(rest) by {
        assert forall i :: 0 <= i < |rest| ==> rest[i] == config[i + 1];
      }
      InitializedGet(next, rest, show);
      PutSpec(state, k0, d.value);
      var r := Initialized(state, config, show).state;
      assert forall j :: 0 <= j < |rest| ==> rest[j].0 == config[j + 1].0 != k0;
      forall i | 0 <= i < |config|
        ensures Get(r, config[i].0) == DecodeEntry(config[i].0, config[i].1, show)
      {
        if i > 0 {
          assert rest[i - 1] == config[i];
        }
      }
      forall k | k !in Keys(config) ensures Get(r, k) == Get(state, k) {
        assert k != k0 && k !in Keys(rest);
      }
    }
  }

  /** Saving after a complete load sends, under every configuration key, the encoding of the
      value that key was decoded to: the field-by-field round trips above hold for the whole
      body. */
  lemma ConfigRoundTrip(state: Dict<Val>, config: Dict<Val>, show: real -> string)
    requires UniqueKeys(state) && UniqueKeys(config) && Initialized(state, config, show).completed
    ensures forall i :: 0 <= i < |config| ==>
              && DecodeEntry(config[i].0, config[i].1, show).Some?
              && Get(Payload(Initialized(state, config, show).state, show), config[i].0)
                 == Some(EncodeEntry(config[i].0, DecodeEntry(config[i].0, config[i].1, show).value, show))
  {
    var loaded := Initialized(state, config, show).state;
    InitializedKeepsUnique(state, config, show);
    InitializedGet(state, config, show);
    InitializedCompletes(state, config, show);
    forall i | 0 <= i < |config|
      ensures && DecodeEntry(config[i].0, config[i].1, show).Some?
              && Get(Payload(loaded, show), config[i].0)
                 == Some(EncodeEntry(config[i].0, DecodeEntry(config[i].0, config[i].1, show).value, show))
    {
      ThrowsIffNone(config[i].0, config[i].1, show);
      RebuiltGet(loaded, Encoder(show), config[i].0);
    }
  }

  /** Saving sends exactly the state's keys, in the state's order. */
  lemma PayloadShape(state: Dict<Val>, show: real -> string)
    requires UniqueKeys(state)
    ensures |Payload(state, show)| == |state|
    ensures forall i :: 0 <= i < |state| ==>
              Payload(state, show)[i] == (state[i].0, EncodeEntry(state[i].0, state[i].1, show))
  {
    RebuiltShape(state, Encoder(show));
  }

  /** The body `GET /api/config` answers with, in its key order. */
  function ConfigJson(c: Config): Dict<Val>
  {
    [("wakeTime", c.wakeTime), ("fraction", c.fraction), ("margin", c.margin), ("maxVwap", c.maxVwap),
     ("minSlope", c.minSlope), ("stopMargin", c.stopMargin), ("walkAway", c.walkAway),
     ("strategy", c.strategy), ("isTesting", c.isTesting), ("maxOrders", c.maxOrders),
     ("maxVolatility", c.maxVolatility), ("minLoss", c.minLoss), ("maxRSI", c.maxRSI),
     ("minRelVol", c.minRelVol), ("maxRounds", c.maxRounds),
     ("minMarketSlopeCategory", c.minMarketSlopeCategory), ("maxRank", c.maxRank)]
  }

  /** Loading the bot's configuration runs to the end exactly when its wake time is a string
      with a shorthand in it; otherwise the first entry throws and the state is untouched. */
  lemma LoadNeedsShorthand(c: Config, state: Dict<Val>, show: real -> string)
    ensures Initialized(state, ConfigJson(c), show).completed <==> DecodeWakeTime(c.wakeTime).Some?
    ensures DecodeWakeTime(c.wakeTime).None? ==> Initialized(state, ConfigJson(c), show).state == state
  {
    InitializedCompletes(state, ConfigJson(c), show);
  }

  /** Started without a wake-time argument, the bot serves the number 10 and the page never
      loads its configuration. */
  lemma DefaultStartupNeverLoads(argv: seq<string>, state: Dict<Val>, show: real -> string)
    requires |argv| <= 2 || argv[2] == ""
    ensures Initialized(state, ConfigJson(StartupConfig(argv)), show) == Init(state, false)
  {
    DefaultWakeTimeIsNumeric(argv);
    LoadNeedsShorthand(StartupConfig(argv), state, show);
  }

  // ---------------------------------------------------------------------------------------
  // Input events
  // ---------------------------------------------------------------------------------------

  /** An event changes the entry under `attr` and no other. */
  lemma ChangeTouchesOnlyAttr(state: Dict<Val>, attr: string, ev: InputEvent)
    ensures var s := Put(state, attr, Changed(Get(state, attr), ev));
            Get(s, attr) == Some(Changed(Get(state, attr), ev))
            && (forall k :: k != attr ==> Get(s, k) == Get(state, k))
            && Keys(s) == Keys(state) + {attr}
  {
    PutSpec(state, attr, Changed(Get(state, attr), ev));
  }

  /** A click flips "on" and "off", so two clicks restore either. */
  lemma ClickTwice(state: Dict<Val>, attr: string)
    requires Get(state, attr) == Some(Str("on")) || Get(state, attr) == Some(Str("off"))
    ensures var once := Put(state, attr, Changed(Get(state, attr), Click));
            var twice := Put(once, attr, Changed(Get(once, attr), Click));
            Get(once, attr) != Get(state, attr) && Get(twice, attr) == Get(state, attr)
  {
    var once := Put(state, attr, Changed(Get(state, attr), Click));
    PutSpec(state, attr, Changed(Get(state, attr), Click));
    PutSpec(once, attr, Changed(Get(once, attr), Click));
  }

  /** Numeric text is stored as a number, white space around it ignored; other text is stored
      as itself, and an emptied field as 0. */
  lemma EnteredText()
    ensures Changed(None, Entry("12")) == Num(12.0)
    ensures Changed(None, Entry("abc")) == Str("abc")
    ensures Changed(None, Entry("")) == Num(0.0)
    ensures Changed(None, Entry(" 5 ")) == Num(5.0)
  {
    NumeralsAreNumbers();
    OtherValuesAreNaN();
  }
}
