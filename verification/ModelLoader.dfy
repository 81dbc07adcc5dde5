// The JSON cursor of the program and its parsers (src/rank_model.c:9-109), each proved against the parser
// functions of ModelFile.dfy on the text behind the cursor.
module ModelLoader {
  import opened Bytes
  import opened RankModels
  import M = ModelFiles

  /** White space in front of a token changes nothing. */
  lemma TokenWs(s: string, c: char)
    ensures M.Token(M.Ws(s), c) == M.Token(s, c)
  {
  }

  class Json {
    const text: string
    const lib: M.Numbers
    var p: nat
    var depth: nat

    /** The text behind the cursor; none once the cursor has passed the terminating NUL. */
    function Rest(): string
      reads this`p
    {
      if p <= |text| then text[p..] else ""
    }

    constructor (text: string, lib: M.Numbers)
      ensures this.text == text && this.lib == lib && Rest() == text && depth == 0
    {
      this.text, this.lib, p, depth := text, lib, 0, 0;
    }

    /** `*j->p`: behind the text stands a NUL. */
    function Head(): (c: char)
      reads this`p
      ensures c != '\0' ==> Rest() != "" && Rest()[0] == c
      ensures c == '\0' ==> Rest() == "" || Rest()[0] == '\0'
    {
      if p < |text| then text[p] else '\0'
    }

    /** `j->p++` on a character. */
    method Advance()
      requires Rest() != ""
      modifies this`p
      ensures Rest() == old(Rest())[1..]
    {
      p := p + 1;
    }

    /** `ws`. */
    method SkipSpace()
      modifies this`p
      ensures Rest() == M.Ws(old(Rest()))
    {
      while M.IsSpace(Head())
        invariant M.Ws(Rest()) == M.Ws(old(Rest()))
        decreases |Rest()|
      {
        Advance();
      }
    }

    /** `token`. */
    method Token(c: char) returns (ok: bool)
      requires c != '\0'
      modifies this`p
      ensures ok == M.Token(old(Rest()), c).Some?
      ensures Rest() == if ok then M.Token(old(Rest()), c).value else M.Ws(old(Rest()))
    {
      SkipSpace();
      ok := Head() == c;
      if ok {
        Advance();
      }
    }

    /** `string`. */
    method String(capacity: nat) returns (ok: bool, chars: string)
      requires capacity > 0
      modifies this`p
      ensures match M.String(old(Rest()), capacity)
              case None => !ok
              case Some((s, rest)) => ok && chars == s && Rest() == rest
    {
      hide M.Chars, M.Token;
      chars := "";
      ok := Token('"');
      if ok {
        ok, chars := Characters(capacity);
      }
    }

    /** The characters of a string behind its opening quote, gathered in a buffer of `capacity`. */
    method Characters(capacity: nat) returns (ok: bool, chars: string)
      requires capacity > 0
      modifies this`p
      ensures match M.Chars(old(Rest()), capacity)
              case None => !ok
              case Some((s, rest)) => ok && chars == s && Rest() == rest
    {
      hide M.Chars, Behind;
      ghost var start := Rest();
      var out, n := new char[capacity], 0;
      ghost var gathered, room := "", capacity;
      BehindNothing(M.Chars(start, capacity));
      while Head() != '\0' && Head() != '"'
        invariant room == capacity - n > 0 && gathered == out[..n]
        invariant M.Chars(start, capacity) == Behind(gathered, M.Chars(Rest(), room))
        decreases |Rest()|
      {
        var c := Head();
        CharsNext(Rest(), room);
        if c < ' ' || c == '\\' || n + 1 >= capacity {
          BehindNone(gathered);
          p := p + 1;
          return false, "";
        }
        BehindMore(gathered, c, M.Chars(Rest()[1..], room - 1));
        Append(out, n, c);
        gathered := gathered + [c];
        Advance();
        n, room := n + 1, room - 1;
      }
      CharsEnd(Rest(), room, gathered);
      ok := Head() == '"';
      p := p + 1;
      chars := out[..n];
    }

    /** `out[n] = c`. */
    static method Append(out: array<char>, n: nat, c: char)
      requires n < out.Length
      modifies out
      ensures out[..n + 1] == old(out[..n]) + [c]
    {
      out[n] := c;
    }

    /** `number`. */
    method Number() returns (ok: bool, value: real)
      modifies this`p
      ensures match M.Number(lib, old(Rest()))
              case None => !ok
              case Some((x, rest)) => ok && value == x && Rest() == rest
    {
      SkipSpace();
      if Head() != '-' && !M.IsDigit(Head()) {
        return false, 0.0;
      }
      var scanned := lib.scan(text[p..]);
      if scanned.None? || scanned.value.1 == 0 || scanned.value.1 > |text| - p {
        return false, 0.0;
      }
      p := p + scanned.value.1;
      return true, scanned.value.0;
    }

    method Key(capacity: nat) returns (ok: bool, key: string)
      requires capacity > 0
      modifies this`p
      ensures match M.Key(old(Rest()), capacity)
              case None => !ok
              case Some((s, rest)) => ok && key == s && Rest() == rest
    {
      ok, key := String(capacity);
      if ok {
        ok := Token(':');
      }
    }

    /** `skip`. */
    method Skip() returns (ok: bool)
      modifies this
      ensures match M.Skip(lib, old(Rest()), old(depth))
              case None => !ok
              case Some(rest) => ok && Rest() == rest && depth == old(depth)
      ensures depth >= old(depth)
      decreases |Rest()|, 0
    {
      hide M.String, M.Number;
      ghost var start := Rest();
      SkipSpace();
      depth := depth + 1;
      if depth > M.MAX_DEPTH {
        return false;
      }
      var c := Head();
      if c == '{' || c == '[' {
        Advance();
        SkipSpace();
        if Head() == M.CloserOf(c) {
          Advance();
          ok := true;
        } else {
          ok := SkipItems(M.CloserOf(c));
        }
      } else if c == '"' {
        var value;
        ok, value := String(M.SKIPPED_STRING_CAPACITY);
      } else if M.StartsWith(Rest(), "null") || M.StartsWith(Rest(), "true") {
        p := p + 4;
        ok := true;
      } else if M.StartsWith(Rest(), "false") {
        p := p + 5;
        ok := true;
      } else {
        var value;
        ok, value := Number();
      }
      depth := depth - 1;
    }

    /** The loop of `skip` over elements or members. */
    method SkipItems(close: char) returns (ok: bool)
      requires close == '}' || close == ']'
      modifies this
      ensures match M.SkipItems(lib, old(Rest()), close, old(depth))
              case None => !ok
              case Some(rest) => ok && Rest() == rest && depth == old(depth)
      ensures depth >= old(depth)
      decreases |Rest()|, 1
    {
      while true
        invariant depth == old(depth)
        invariant M.SkipItems(lib, Rest(), close, depth) == M.SkipItems(lib, old(Rest()), close, old(depth))
        invariant |Rest()| <= |old(Rest())|
        decreases |Rest()|
      {
        if close == '}' {
          var key;
          ok, key := Key(M.SKIPPED_KEY_CAPACITY);
          if !ok {
            return;
          }
        }
        ok := Skip();
        if !ok {
          return;
        }
        ghost var rest := Rest();
        ok := Token(close);
        if ok {
          return;
        }
        TokenWs(rest, ',');
        ok := Token(',');
        if !ok {
          return;
        }
      }
    }

    // ---------- Known fields ----------

    /** `map`, over `values` in place. */
    method Map(values: array<real>) returns (ok: bool)
      requires values.Length == FEATURE_COUNT
      modifies this`p, values
      ensures match M.Map(lib, old(Rest()), old(values[..]))
              case None => !ok
              case Some((vs, rest)) => ok && values[..] == vs && Rest() == rest
    {
      hide M.Key, M.Number, M.FeatureIndex;
      ok := Token('{');
      if !ok {
        return;
      }
      ghost var start := Rest();
      var empty := Token('}');
      if empty {
        return;
      }
      ItemsWs(start, old(values[..]));
      var seen: set<M.Feature> := {};
      while true
        invariant M.MapItems(lib, Rest(), seen, values[..]) == M.MapItems(lib, start, {}, old(values[..]))
        decreases |Rest()|
      {
        var key, value;
        ok, key := Key(M.KEY_CAPACITY);
        if !ok {
          return;
        }
        ok, value := Number();
        if !ok {
          return;
        }
        var index := M.FeatureIndex(key, 0);
        if index.None? || index.value in seen {
          return false;
        }
        seen := seen + {index.value};
        ghost var before := values[..];
        values[index.value] := value;
        assert values[..] == before[index.value := value];
        ghost var rest := Rest();
        ok := Token('}');
        if ok {
          return;
        }
        TokenWs(rest, ',');
        ok := Token(',');
        if !ok {
          return;
        }
      }
    }

    /** The list of feature names. */
    method Features() returns (ok: bool, order: seq<M.Feature>)
      modifies this`p
      ensures match M.FeatureItems(old(Rest()), [])
              case None => !ok
              case Some((fs, rest)) => ok && order == fs && Rest() == rest
    {
      hide M.String, M.FeatureIndex;
      order := [];
      while true
        invariant M.FeatureItems(Rest(), order) == M.FeatureItems(old(Rest()), [])
        decreases |Rest()|
      {
        if |order| == FEATURE_COUNT {
          return false, [];
        }
        var name;
        ok, name := String(M.KEY_CAPACITY);
        if !ok {
          return;
        }
        var index := M.FeatureIndex(name, 0);
        if index.None? || index.value in order {
          return false, [];
        }
        order := order + [index.value];
        ghost var rest := Rest();
        var more := Token(',');
        if !more {
          TokenWs(rest, ']');
          ok := Token(']');
          return;
        }
      }
    }

    /** The list of weights. */
    method Weights() returns (ok: bool, weights: seq<real>)
      modifies this`p
      ensures match M.WeightItems(lib, old(Rest()), [])
              case None => !ok
              case Some((ws, rest)) => ok && weights == ws && Rest() == rest
    {
      hide M.Number;
      weights := [];
      while true
        invariant M.WeightItems(lib, Rest(), weights) == M.WeightItems(lib, old(Rest()), [])
        decreases |Rest()|
      {
        if |weights| == FEATURE_COUNT + 1 {
          return false, [];
        }
        var value;
        ok, value := Number();
        if !ok {
          return;
        }
        weights := weights + [value];
        ghost var rest := Rest();
        var more := Token(',');
        if !more {
          TokenWs(rest, ']');
          ok := Token(']');
          return;
        }
      }
    }

    /** A name list or a weight list from its bracket on. */
    method ListField(kind: M.Kind, d: M.Draft) returns (ok: bool, d': M.Draft)
      requires kind == M.FeatureList || kind == M.WeightList
      modifies this`p
      ensures match M.FieldValue(lib, old(Rest()), kind, d)
              case None => !ok
              case Some((r, rest)) => ok && d' == r && Rest() == rest
    {
      hide M.FeatureItems, M.WeightItems;
      d' := d;
      ok := Token('[');
      if !ok {
        return;
      }
      if kind == M.FeatureList {
        var order;
        ok, order := Features();
        d' := d.(order := order);
      } else {
        var weights;
        ok, weights := Weights();
        d' := d.(weights := weights);
      }
    }

    /** A map field. */
    method MapField(kind: M.Kind, d: M.Draft) returns (ok: bool, d': M.Draft)
      requires kind == M.MeanMap || kind == M.ScaleMap
      modifies this`p
      ensures match M.FieldValue(lib, old(Rest()), kind, d)
              case None => !ok
              case Some((r, rest)) => ok && d' == r && Rest() == rest
    {
      hide M.Map;
      var vs := if kind == M.MeanMap then d.means else d.scales;
      var values := new real[FEATURE_COUNT](i requires 0 <= i < FEATURE_COUNT => vs[i]);
      assert values[..] == vs;
      ok := Map(values);
      d' := if kind == M.MeanMap then d.(means := values[..]) else d.(scales := values[..]);
    }

    /** The value of one field. */
    method FieldValue(kind: M.Kind, d: M.Draft) returns (ok: bool, d': M.Draft)
      requires depth == 0
      modifies this
      ensures match M.FieldValue(lib, old(Rest()), kind, d)
              case None => !ok
              case Some((r, rest)) => ok && d' == r && Rest() == rest && depth == 0
    {
      hide M.Skip, M.Map, M.String, M.FeatureItems, M.WeightItems;
      d' := d;
      match kind {
        case FeatureList =>
          ok, d' := ListField(kind, d);
        case WeightList =>
          ok, d' := ListField(kind, d);
        case MeanMap =>
          ok, d' := MapField(kind, d);
        case ScaleMap =>
          ok, d' := MapField(kind, d);
        case KindTag =>
          var tag;
          ok, tag := String(M.KEY_CAPACITY);
          ok := ok && tag == "linear_regression_v1";
        case Unknown =>
          ok := Skip();
      }
    }

    /** The loop over the fields of the model. */
    method Fields(d: M.Draft) returns (ok: bool, d': M.Draft)
      requires depth == 0
      modifies this
      ensures match M.Fields(lib, old(Rest()), d)
              case None => !ok
              case Some((r, rest)) => ok && d' == r && Rest() == rest
    {
      hide M.Key, M.FieldValue, M.KindOf;
      d' := d;
      while true
        invariant depth == 0
        invariant M.Fields(lib, Rest(), d') == M.Fields(lib, old(Rest()), d)
        decreases |Rest()|
      {
        var key;
        ok, key := Key(M.KEY_CAPACITY);
        if !ok {
          return;
        }
        var kind := M.KindOf(key);
        if kind != M.Unknown && kind in d'.fields {
          return false, d';
        }
        ok, d' := FieldValue(kind, d'.(fields := d'.fields + if kind == M.Unknown then {} else {kind}));
        if !ok {
          return;
        }
        ghost var rest := Rest();
        ok := Token('}');
        if ok {
          return;
        }
        TokenWs(rest, ',');
        ok := Token(',');
        if !ok {
          return;
        }
      }
    }
  }

  /** White space in front of the entries of a map changes nothing. */
  lemma ItemsWs(s: string, values: Values)
    ensures forall lib: M.Numbers :: M.MapItems(lib, M.Ws(s), {}, values) == M.MapItems(lib, s, {}, values)
  {
  }

  /** Weights by feature. */
  method PlaceWeights(order: seq<M.Feature>, weights: seq<real>) returns (placed: array<real>)
    requires |weights| == |order| + 1
    ensures fresh(placed) && placed[..] == M.Placed(order, weights, |order|)
  {
    placed := new real[FEATURE_COUNT + 1](_ => 0.0);
    placed[0] := weights[0];
    assert placed[..] == M.Placed(order, weights, 0);
    for i := 0 to |order|
      invariant placed.Length == FEATURE_COUNT + 1
      invariant placed[..] == M.Placed(order, weights, i)
    {
      ghost var before := placed[..];
      placed[order[i] + 1] := weights[i + 1];
      assert placed[..] == before[order[i] + 1 := weights[i + 1]];
    }
  }

  /** `sf_rank_model_load` on the bytes of the file. */
  method LoadModel(lib: M.Numbers, file: string) returns (model: Option<RankModel>)
    ensures model == M.LoadFile(lib, file)
  {
    hide M.Fields, M.Placed;
    if |file| >= M.MAX_FILE {
      return None;
    }
    var j := new Json(file, lib);
    var ok := j.Token('{');
    if !ok {
      return None;
    }
    var d;
    ok, d := j.Fields(M.BlankDraft());
    if !ok {
      return None;
    }
    j.SkipSpace();
    if j.Head() != '\0' || !(M.KNOWN <= d.fields) || |d.weights| != |d.order| + 1 {
      return None;
    }
    var weights := PlaceWeights(d.order, d.weights);
    return Some(RankModel(d.means, d.scales, weights[..], true));
  }

  function Behind(front: string, r: Option<(string, string)>): Option<(string, string)>
  {
    match r
    case None => None
    case Some((chars, rest)) => Some((front + chars, rest))
  }

  lemma BehindNone(front: string)
    ensures Behind(front, None) == None
  {
  }

  /** One character of a string. */
  lemma CharsNext(s: string, room: nat)
    requires s != "" && s[0] != '"'
    ensures M.Chars(s, room) ==
            if s[0] < ' ' || s[0] == '\\' || room <= 1 then None else Behind([s[0]], M.Chars(s[1..], room - 1))
  {
  }

  /** The end of a string, or of the text. */
  lemma CharsEnd(s: string, room: nat, front: string)
    requires s == "" || s[0] == '"' || s[0] == '\0'
    ensures Behind(front, M.Chars(s, room)) == if s != "" && s[0] == '"' then Some((front, s[1..])) else None
  {
    assert front + "" == front;
  }

  lemma BehindNothing(r: Option<(string, string)>)
    ensures Behind("", r) == r
  {
    if r.Some? {
      assert "" + r.value.0 == r.value.0;
    }
  }

  lemma BehindMore(front: string, c: char, r: Option<(string, string)>)
    ensures Behind(front, Behind([c], r)) == Behind(front + [c], r)
  {
    if r.Some? {
      assert front + ([c] + r.value.0) == front + [c] + r.value.0;
    }
  }
}
