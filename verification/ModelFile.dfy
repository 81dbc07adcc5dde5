// The reader of ranking-model files (src/rank_model.c:9-109): a small JSON parser. Every function takes the text
// still to be read and gives what is left. Numbers are read and printed by the C library, a parameter.
module ModelFiles {
  import opened Bytes
  import opened RankModels

  /** `strtod` on a text: the value and the length it takes, nothing if there is no finite number; `printf("%.17g")`. */
  datatype Numbers = Numbers(scan: string -> Option<(real, nat)>, print17: real -> string)

  /** `sf_feature_names`. */
  const FEATURE_NAMES: seq<string> := [
    "packet_confidence", "packets", "slice_bytes", "cc_errors", "missing_by_cc",
    "out_of_order", "bad_pes_starts", "low_entropy_packets", "high_entropy_packets", "idr_bytes", "has_idr"]

  const MAX_FILE := 65536
  const MAX_DEPTH := 16
  const KEY_CAPACITY := 128
  const SKIPPED_KEY_CAPACITY := 256
  const SKIPPED_STRING_CAPACITY := 4096

  // ---------- Tokens ----------

  predicate IsSpace(c: char)
  {
    c == ' ' || '\t' <= c <= '\r'
  }

  predicate IsDigit(c: char)
  {
    '0' <= c <= '9'
  }

  /** `ws`. */
  function Ws(s: string): (r: string)
    ensures |r| <= |s|
    ensures r != "" ==> !IsSpace(r[0])
  {
    if s != "" && IsSpace(s[0]) then Ws(s[1..]) else s
  }

  /** `token`. */
  function Token(s: string, c: char): (r: Option<string>)
    ensures r.Some? ==> |r.value| < |s|
  {
    var t := Ws(s);
    if t != "" && t[0] == c then Some(t[1..]) else None
  }

  /** The characters up to the closing quote; no escapes, no controls, at most `room - 1` of them. */
  function Chars(s: string, room: nat): (r: Option<(string, string)>)
    ensures r.Some? ==> |r.value.1| < |s|
  {
    if s == "" then None
    else if s[0] == '"' then Some(("", s[1..]))
    else if s[0] < ' ' || s[0] == '\\' || room <= 1 then None
    else match Chars(s[1..], room - 1)
      case None => None
      case Some((chars, rest)) => Some(([s[0]] + chars, rest))
  }

  /** `string`. */
  function String(s: string, capacity: nat): (r: Option<(string, string)>)
    ensures r.Some? ==> |r.value.1| < |s|
  {
    match Token(s, '"')
    case None => None
    case Some(t) => Chars(t, capacity)
  }

  /** `number`. */
  function Number(lib: Numbers, s: string): (r: Option<(real, string)>)
    ensures r.Some? ==> |r.value.1| < |s|
  {
    var t := Ws(s);
    if t == "" || (t[0] != '-' && !IsDigit(t[0])) then None else
    match lib.scan(t)
    case None => None
    case Some((x, n)) => if 0 < n <= |t| then Some((x, t[n..])) else None
  }

  /** A key and the colon behind it. */
  function Key(s: string, capacity: nat): (r: Option<(string, string)>)
    ensures r.Some? ==> |r.value.1| < |s|
  {
    match String(s, capacity)
    case None => None
    case Some((key, t)) =>
      match Token(t, ':')
      case None => None
      case Some(u) => Some((key, u))
  }

  // ---------- Unknown fields ----------

  predicate StartsWith(s: string, word: string)
  {
    |word| <= |s| && s[..|word|] == word
  }

  function CloserOf(open: char): char
  {
    if open == '{' then '}' else ']'
  }

  /** `skip`: any JSON value nested at most 16 deep. */
  function Skip(lib: Numbers, s: string, depth: nat): (r: Option<string>)
    ensures r.Some? ==> |r.value| < |s|
    decreases |s|, 0
  {
    var t := Ws(s);
    if depth >= MAX_DEPTH || t == "" then None
    else if t[0] == '{' || t[0] == '[' then
      var u := Ws(t[1..]);
      if u != "" && u[0] == CloserOf(t[0]) then Some(u[1..]) else SkipItems(lib, u, CloserOf(t[0]), depth + 1)
    else if t[0] == '"' then
      (match String(t, SKIPPED_STRING_CAPACITY)
       case None => None
       case Some((_, rest)) => Some(rest))
    else if StartsWith(t, "null") || StartsWith(t, "true") then Some(t[4..])
    else if StartsWith(t, "false") then Some(t[5..])
    else match Number(lib, t)
      case None => None
      case Some((_, rest)) => Some(rest)
  }

  /** The elements of an array or the members of an object, up to its end. */
  function SkipItems(lib: Numbers, s: string, close: char, depth: nat): (r: Option<string>)
    ensures r.Some? ==> |r.value| < |s|
    decreases |s|, 1
  {
    var value := if close == '}' then Key(s, SKIPPED_KEY_CAPACITY) else Some(("", s));
    if value.None? then None else
    match Skip(lib, value.value.1, depth)
    case None => None
    case Some(t) =>
      if Token(t, close).Some? then Token(t, close) else
      match Token(t, ',')
      case None => None
      case Some(u) => SkipItems(lib, u, close, depth)
  }

  // ---------- Known fields ----------

  /** The place of a feature in the vectors. */
  type Feature = i: nat | i < FEATURE_COUNT

  /** `feature_index`. */
  function FeatureIndex(name: string, i: nat): (r: Option<Feature>)
    requires i <= FEATURE_COUNT
    ensures r.Some? ==> i <= r.value && FEATURE_NAMES[r.value] == name
    ensures r.None? ==> forall k :: i <= k < FEATURE_COUNT ==> FEATURE_NAMES[k] != name
    decreases FEATURE_COUNT - i
  {
    if i == FEATURE_COUNT then None
    else if FEATURE_NAMES[i] == name then Some(i)
    else FeatureIndex(name, i + 1)
  }

  /** The entries of a map of features to numbers; no feature comes twice. */
  function MapItems(lib: Numbers, s: string, seen: set<Feature>, values: Values): (r: Option<(Values, string)>)
    ensures r.Some? ==> |r.value.1| < |s|
    decreases |s|
  {
    match Key(s, KEY_CAPACITY)
    case None => None
    case Some((name, t)) =>
      match Number(lib, t)
      case None => None
      case Some((x, u)) =>
        var index := FeatureIndex(name, 0);
        if index.None? || index.value in seen then None else
        var values' := values[index.value := x];
        match Token(u, '}')
        case Some(rest) => Some((values', rest))
        case None =>
          match Token(u, ',')
          case None => None
          case Some(next) => MapItems(lib, next, seen + {index.value}, values')
  }

  /** `map`. */
  function Map(lib: Numbers, s: string, values: Values): (r: Option<(Values, string)>)
    ensures r.Some? ==> |r.value.1| < |s|
  {
    match Token(s, '{')
    case None => None
    case Some(t) =>
      match Token(t, '}')
      case Some(rest) => Some((values, rest))
      case None => MapItems(lib, t, {}, values)
  }

  /** The list of feature names, `order` being those read. */
  function FeatureItems(s: string, order: seq<Feature>): (r: Option<(seq<Feature>, string)>)
    ensures r.Some? ==> |r.value.1| < |s|
    decreases |s|
  {
    if |order| == FEATURE_COUNT then None else
    match String(s, KEY_CAPACITY)
    case None => None
    case Some((name, t)) =>
      var index := FeatureIndex(name, 0);
      if index.None? || index.value in order then None else
      match Token(t, ',')
      case Some(next) => FeatureItems(next, order + [index.value])
      case None =>
        match Token(t, ']')
        case None => None
        case Some(rest) => Some((order + [index.value], rest))
  }

  /** The list of weights, `weights` being those read. */
  function WeightItems(lib: Numbers, s: string, weights: seq<real>): (r: Option<(seq<real>, string)>)
    ensures r.Some? ==> |r.value.1| < |s|
    decreases |s|
  {
    if |weights| == FEATURE_COUNT + 1 then None else
    match Number(lib, s)
    case None => None
    case Some((x, t)) =>
      match Token(t, ',')
      case Some(next) => WeightItems(lib, next, weights + [x])
      case None =>
        match Token(t, ']')
        case None => None
        case Some(rest) => Some((weights + [x], rest))
  }

  datatype Kind = FeatureList | WeightList | MeanMap | ScaleMap | KindTag | Unknown

  const KNOWN: set<Kind> := {FeatureList, WeightList, MeanMap, ScaleMap, KindTag}

  function KindOf(key: string): Kind
  {
    if key == "features" then FeatureList
    else if key == "weights" then WeightList
    else if key == "means" then MeanMap
    else if key == "scales" then ScaleMap
    else if key == "kind" then KindTag
    else Unknown
  }

  /** What the loader has gathered. */
  datatype Draft = Draft(fields: set<Kind>, order: seq<Feature>, weights: seq<real>, means: Values, scales: Values)

  function OneValues(): Values
  {
    seq(FEATURE_COUNT, _ => 1.0)
  }

  function BlankDraft(): Draft
  {
    Draft({}, [], [], ZeroValues(), OneValues())
  }

  /** The value of a field of some kind. */
  function FieldValue(lib: Numbers, s: string, kind: Kind, d: Draft): (r: Option<(Draft, string)>)
    ensures r.Some? ==> |r.value.1| < |s|
  {
    match kind
    case FeatureList =>
      (match Token(s, '[')
       case None => None
       case Some(t) =>
         match FeatureItems(t, [])
         case None => None
         case Some((order, rest)) => Some((d.(order := order), rest)))
    case WeightList =>
      (match Token(s, '[')
       case None => None
       case Some(t) =>
         match WeightItems(lib, t, [])
         case None => None
         case Some((weights, rest)) => Some((d.(weights := weights), rest)))
    case MeanMap =>
      (match Map(lib, s, d.means)
       case None => None
       case Some((means, rest)) => Some((d.(means := means), rest)))
    case ScaleMap =>
      (match Map(lib, s, d.scales)
       case None => None
       case Some((scales, rest)) => Some((d.(scales := scales), rest)))
    case KindTag =>
      (match String(s, KEY_CAPACITY)
       case None => None
       case Some((tag, rest)) => if tag == "linear_regression_v1" then Some((d, rest)) else None)
    case Unknown =>
      (match Skip(lib, s, 0)
       case None => None
       case Some(rest) => Some((d, rest)))
  }

  /** The fields of the top-level object, up to its end; no known field comes twice. */
  function Fields(lib: Numbers, s: string, d: Draft): Option<(Draft, string)>
    decreases |s|
  {
    match Key(s, KEY_CAPACITY)
    case None => None
    case Some((key, t)) =>
      var kind := KindOf(key);
      if kind != Unknown && kind in d.fields then None else
      match FieldValue(lib, t, kind, d.(fields := d.fields + if kind == Unknown then {} else {kind}))
      case None => None
      case Some((d', u)) =>
        if Token(u, '}').Some? then Some((d', Token(u, '}').value)) else
        match Token(u, ',')
        case None => None
        case Some(next) => Fields(lib, next, d')
  }

  /** Each weight goes to the place of its feature; features not listed weigh nothing. */
  function Placed(order: seq<Feature>, weights: seq<real>, n: nat): (r: seq<real>)
    requires n <= |order| && |weights| == |order| + 1
    ensures |r| == FEATURE_COUNT + 1
  {
    if n == 0 then seq(FEATURE_COUNT + 1, i => if i == 0 then weights[0] else 0.0)
    else Placed(order, weights, n - 1)[order[n - 1] + 1 := weights[n]]
  }

  /** The parser's part of `sf_rank_model_load`. */
  function Load(lib: Numbers, s: string): (m: Option<RankModel>)
  {
    match Token(s, '{')
    case None => None
    case Some(t) =>
      match Fields(lib, t, BlankDraft())
      case None => None
      case Some((d, rest)) =>
        var tail := Ws(rest);
        if (tail != "" && tail[0] != '\0') || !(KNOWN <= d.fields) || |d.weights| != |d.order| + 1 then None
        else Some(RankModel(d.means, d.scales, Placed(d.order, d.weights, |d.order|), true))
  }

  /** `sf_rank_model_load`: files of 65536 bytes and more are refused unread. */
  function LoadFile(lib: Numbers, file: string): Option<RankModel>
  {
    if |file| >= MAX_FILE then None else Load(lib, file)
  }
}
