// Ranking models as documents: JSON text of any layout, and what it means to the reader (src/rank_model.c:9-109).
// Texts are built from the end: each function takes what follows and puts its own text in front.
module ModelDocuments {
  import opened Bytes
  import opened RankModels
  import opened ModelFiles

  // ---------- Documents ----------

  /** The white space around one element: in front of its key, of the colon, of its value, and of what ends it. */
  datatype Pad = Pad(key: string, colon: string, value: string, comma: string)

  /** Any JSON value; `Num` holds its numeral, `end` the white space in front of a closing bracket. */
  datatype Value =
    | Null
    | True
    | False
    | Num(text: string)
    | Str(text: string)
    | Arr(items: Members, end: string)
    | Obj(members: Members, end: string)

  /** Elements of an array or members of an object; the keys of array elements are not written. */
  datatype Members = Nil | Cons(pad: Pad, key: string, value: Value, rest: Members)

  /** A number given to a feature. */
  datatype Entry = Entry(feature: Feature, value: real)

  /** What a field says, and how it is laid out: the numerals that stand for its numbers and the white space. */
  datatype Item =
    | Features(names: seq<Feature>, pads: seq<Pad>, end: string)
    | Weights(values: seq<real>, numerals: seq<string>, pads: seq<Pad>, end: string)
    | Means(entries: seq<Entry>, numerals: seq<string>, pads: seq<Pad>, end: string)
    | Scales(entries: seq<Entry>, numerals: seq<string>, pads: seq<Pad>, end: string)
    | Tag
    | Other(key: string, value: Value)

  datatype Field = Field(pad: Pad, item: Item)

  /** The fields of the top-level object, with what stands in front of it and behind it. */
  datatype Document = Document(head: string, fields: seq<Field>, tail: string)

  // ---------- Their text ----------

  function Quoted(s: string, rest: string): string
  {
    "\"" + (s + ("\"" + rest))
  }

  /** A character behind white space. */
  function Spaced(gap: string, c: char, rest: string): string
  {
    gap + ([c] + rest)
  }

  function KeyThen(pad: Pad, key: string, rest: string): string
  {
    pad.key + Quoted(key, Spaced(pad.colon, ':', pad.value + rest))
  }

  function ValueThen(v: Value, rest: string): string
    decreases v, 0
  {
    match v
    case Null => "null" + rest
    case True => "true" + rest
    case False => "false" + rest
    case Num(text) => text + rest
    case Str(text) => Quoted(text, rest)
    case Arr(items, end) => "[" + MembersThen(items, false, Spaced(end, ']', rest))
    case Obj(members, end) => "{" + MembersThen(members, true, Spaced(end, '}', rest))
  }

  function MembersThen(m: Members, keyed: bool, rest: string): string
    decreases m, 1
  {
    if m == Nil then rest else FirstThen(m, keyed, ValueThen(m.value, BehindFirst(m, keyed, rest)))
  }

  /** What stands in front of the first value. */
  function FirstThen(m: Members, keyed: bool, value: string): string
    requires m != Nil
  {
    if keyed then KeyThen(m.pad, m.key, value) else m.pad.value + value
  }

  /** What stands behind the first value. */
  function BehindFirst(m: Members, keyed: bool, rest: string): string
    requires m != Nil
    decreases m, 0
  {
    if m.rest == Nil then rest else Spaced(m.pad.comma, ',', MembersThen(m.rest, keyed, rest))
  }

  /** The elements of a list from the `i`-th on. */
  function NamesThen(names: seq<Feature>, pads: seq<Pad>, i: nat, rest: string): string
    requires i <= |names| == |pads|
    decreases |names| - i
  {
    if i == |names| then rest else
    pads[i].value + Quoted(FEATURE_NAMES[names[i]], if i + 1 == |names| then rest else Spaced(pads[i].comma, ',', NamesThen(names, pads, i + 1, rest)))
  }

  function WeightsThen(numerals: seq<string>, pads: seq<Pad>, i: nat, rest: string): string
    requires i <= |numerals| == |pads|
    decreases |numerals| - i
  {
    if i == |numerals| then rest else
    pads[i].value + (numerals[i] + if i + 1 == |numerals| then rest else Spaced(pads[i].comma, ',', WeightsThen(numerals, pads, i + 1, rest)))
  }

  function EntriesThen(entries: seq<Entry>, numerals: seq<string>, pads: seq<Pad>, i: nat, rest: string): string
    requires i <= |entries| == |numerals| == |pads|
    decreases |entries| - i
  {
    if i == |entries| then rest else
    KeyThen(pads[i], FEATURE_NAMES[entries[i].feature],
            numerals[i] + if i + 1 == |entries| then rest else Spaced(pads[i].comma, ',', EntriesThen(entries, numerals, pads, i + 1, rest)))
  }

  function ItemKey(item: Item): string
  {
    match item
    case Features(_, _, _) => "features"
    case Weights(_, _, _, _) => "weights"
    case Means(_, _, _, _) => "means"
    case Scales(_, _, _, _) => "scales"
    case Tag => "kind"
    case Other(key, _) => key
  }

  /** Numerals and white space for each element. */
  predicate LaidOut(item: Item)
  {
    match item
    case Features(names, pads, _) => |names| == |pads|
    case Weights(values, numerals, pads, _) => |values| == |numerals| == |pads|
    case Means(entries, numerals, pads, _) => |entries| == |numerals| == |pads|
    case Scales(entries, numerals, pads, _) => |entries| == |numerals| == |pads|
    case _ => true
  }

  const TAG := "linear_regression_v1"

  function ItemThen(item: Item, rest: string): string
    requires LaidOut(item)
  {
    match item
    case Features(names, pads, end) => "[" + NamesThen(names, pads, 0, Spaced(end, ']', rest))
    case Weights(_, numerals, pads, end) => "[" + WeightsThen(numerals, pads, 0, Spaced(end, ']', rest))
    case Means(entries, numerals, pads, end) => "{" + EntriesThen(entries, numerals, pads, 0, Spaced(end, '}', rest))
    case Scales(entries, numerals, pads, end) => "{" + EntriesThen(entries, numerals, pads, 0, Spaced(end, '}', rest))
    case Tag => Quoted(TAG, rest)
    case Other(_, value) => ValueThen(value, rest)
  }

  predicate AllLaidOut(fields: seq<Field>)
  {
    forall i :: 0 <= i < |fields| ==> LaidOut(fields[i].item)
  }

  /** The fields, the brace behind them, and the rest. */
  function FieldsThen(fields: seq<Field>, rest: string): string
    requires fields != [] && AllLaidOut(fields)
    decreases |fields|, 1
  {
    KeyThen(fields[0].pad, ItemKey(fields[0].item), ItemThen(fields[0].item, BehindField(fields, rest)))
  }

  /** What stands behind the first field. */
  function BehindField(fields: seq<Field>, rest: string): string
    requires fields != [] && AllLaidOut(fields)
    decreases |fields|, 0
  {
    if |fields| == 1 then Spaced(fields[0].pad.comma, '}', rest)
    else Spaced(fields[0].pad.comma, ',', FieldsThen(fields[1..], rest))
  }

  function DocumentText(doc: Document): string
    requires doc.fields != [] && AllLaidOut(doc.fields)
  {
    Spaced(doc.head, '{', FieldsThen(doc.fields, doc.tail))
  }

  // ---------- Well-formed documents ----------

  /** What ends a numeral: a delimiter or white space. */
  predicate Ends(rest: string)
  {
    rest != "" && (rest[0] in {',', ']', '}'} || IsSpace(rest[0]))
  }

  /** The C library reads `text` as the number `x`, whatever follows behind what ends it. */
  ghost predicate Numeral(lib: Numbers, text: string, x: real)
  {
    && text != "" && (text[0] == '-' || IsDigit(text[0]))
    && forall rest: string :: Ends(rest) ==> lib.scan(text + rest) == Some((x, |text|))
  }

  /** A string without escapes and controls. */
  predicate Plain(s: string, capacity: nat)
  {
    |s| < capacity && forall i :: 0 <= i < |s| ==> s[i] >= ' ' && s[i] != '"' && s[i] != '\\'
  }

  predicate Blank(gap: string)
  {
    forall i :: 0 <= i < |gap| ==> IsSpace(gap[i])
  }

  predicate PadOk(pad: Pad)
  {
    Blank(pad.key) && Blank(pad.colon) && Blank(pad.value) && Blank(pad.comma)
  }

  predicate PadsOk(pads: seq<Pad>)
  {
    forall i :: 0 <= i < |pads| ==> PadOk(pads[i])
  }

  ghost predicate ValueOk(lib: Numbers, v: Value)
  {
    match v
    case Num(text) => exists x: real :: Numeral(lib, text, x)
    case Str(text) => Plain(text, SKIPPED_STRING_CAPACITY)
    case Arr(items, end) => MembersOk(lib, items) && Blank(end)
    case Obj(members, end) => MembersOk(lib, members) && Blank(end)
    case _ => true
  }

  ghost predicate MembersOk(lib: Numbers, m: Members)
  {
    match m
    case Nil => true
    case Cons(pad, key, value, rest) =>
      PadOk(pad) && Plain(key, SKIPPED_KEY_CAPACITY) && ValueOk(lib, value) && MembersOk(lib, rest)
  }

  function Max(a: nat, b: nat): nat
  {
    if a > b then a else b
  }

  function Depth(v: Value): nat
  {
    match v
    case Arr(items, _) => 1 + MembersDepth(items)
    case Obj(members, _) => 1 + MembersDepth(members)
    case _ => 1
  }

  function MembersDepth(m: Members): nat
  {
    match m
    case Nil => 0
    case Cons(_, _, value, rest) => Max(Depth(value), MembersDepth(rest))
  }

  predicate DistinctNames(names: seq<Feature>)
  {
    forall i, j :: 0 <= i < j < |names| ==> names[i] != names[j]
  }

  predicate DistinctEntries(entries: seq<Entry>)
  {
    forall i, j :: 0 <= i < j < |entries| ==> entries[i].feature != entries[j].feature
  }

  ghost predicate WeightsOk(lib: Numbers, values: seq<real>, numerals: seq<string>)
  {
    |values| == |numerals| && forall i :: 0 <= i < |values| ==> Numeral(lib, numerals[i], values[i])
  }

  ghost predicate EntriesOk(lib: Numbers, entries: seq<Entry>, numerals: seq<string>)
  {
    && DistinctEntries(entries) && |entries| == |numerals|
    && forall i :: 0 <= i < |entries| ==> Numeral(lib, numerals[i], entries[i].value)
  }

  ghost predicate ItemOk(lib: Numbers, item: Item)
  {
    && LaidOut(item)
    && match item
       case Features(names, pads, end) => 0 < |names| <= FEATURE_COUNT && DistinctNames(names) && PadsOk(pads) && Blank(end)
       case Weights(values, numerals, pads, end) =>
         0 < |values| <= FEATURE_COUNT + 1 && WeightsOk(lib, values, numerals) && PadsOk(pads) && Blank(end)
       case Means(entries, numerals, pads, end) => EntriesOk(lib, entries, numerals) && PadsOk(pads) && Blank(end)
       case Scales(entries, numerals, pads, end) => EntriesOk(lib, entries, numerals) && PadsOk(pads) && Blank(end)
       case Tag => true
       case Other(key, value) => Plain(key, KEY_CAPACITY) && KindOf(key) == Unknown && ValueOk(lib, value)
  }

  ghost predicate FieldOk(lib: Numbers, f: Field)
  {
    PadOk(f.pad) && ItemOk(lib, f.item)
  }

  ghost predicate FieldsOk(lib: Numbers, fields: seq<Field>)
  {
    fields != [] && forall i :: 0 <= i < |fields| ==> FieldOk(lib, fields[i])
  }

  /** White space, perhaps up to a NUL with anything behind it. */
  predicate TailOk(tail: string)
  {
    exists n :: 0 <= n <= |tail| && Blank(tail[..n]) && (n == |tail| || tail[n] == '\0')
  }

  ghost predicate DocumentOk(lib: Numbers, doc: Document)
  {
    Blank(doc.head) && FieldsOk(lib, doc.fields) && TailOk(doc.tail)
  }

  // ---------- Reading the pieces ----------

  lemma {:induction false} WsBlank(gap: string, rest: string)
    requires Blank(gap) && (rest == "" || !IsSpace(rest[0]))
    ensures Ws(gap + rest) == rest
  {
    if gap == "" {
      assert gap + rest == rest;
    } else {
      assert (gap + rest)[1..] == gap[1..] + rest;
      WsBlank(gap[1..], rest);
    }
  }

  /** White space in front makes no difference to what is behind the white space. */
  lemma {:induction false} WsMore(gap: string, rest: string)
    requires Blank(gap)
    ensures Ws(gap + rest) == Ws(rest)
  {
    if gap == "" {
      assert gap + rest == rest;
    } else {
      assert (gap + rest)[1..] == gap[1..] + rest;
      WsMore(gap[1..], rest);
    }
  }

  lemma {:induction false} WsTwice(s: string)
    ensures Ws(Ws(s)) == Ws(s)
  {
    if s != "" && IsSpace(s[0]) {
      WsTwice(s[1..]);
    }
  }

  lemma {:induction false} CharsOf(s: string, room: nat, rest: string)
    requires Plain(s, room)
    ensures Chars(s + ("\"" + rest), room) == Some((s, rest))
  {
    var t := s + ("\"" + rest);
    if s == "" {
      assert t[0] == '"' && t[1..] == rest;
    } else {
      assert t[0] == s[0] && t[1..] == s[1..] + ("\"" + rest);
      CharsOf(s[1..], room - 1, rest);
      assert [s[0]] + s[1..] == s;
    }
  }

  lemma TokenOf(gap: string, c: char, rest: string)
    requires Blank(gap) && !IsSpace(c)
    ensures Token(Spaced(gap, c, rest), c) == Some(rest)
    ensures forall d :: d != c ==> Token(Spaced(gap, c, rest), d) == None
  {
    WsBlank(gap, [c] + rest);
    assert ([c] + rest)[1..] == rest;
  }

  lemma StringOf(gap: string, s: string, capacity: nat, rest: string)
    requires Blank(gap) && Plain(s, capacity)
    ensures String(gap + Quoted(s, rest), capacity) == Some((s, rest))
  {
    hide Chars, Plain;
    TokenOf(gap, '"', s + ("\"" + rest));
    CharsOf(s, capacity, rest);
  }

  lemma KeyOf(pad: Pad, s: string, capacity: nat, rest: string)
    requires PadOk(pad) && Plain(s, capacity)
    ensures Key(KeyThen(pad, s, rest), capacity) == Some((s, pad.value + rest))
  {
    hide String, Token, Quoted, Plain;
    StringOf(pad.key, s, capacity, Spaced(pad.colon, ':', pad.value + rest));
    TokenOf(pad.colon, ':', pad.value + rest);
  }

  lemma NumberOf(lib: Numbers, gap: string, text: string, x: real, rest: string)
    requires Blank(gap) && Numeral(lib, text, x) && Ends(rest)
    ensures Number(lib, gap + (text + rest)) == Some((x, rest))
  {
    var t := text + rest;
    assert t[0] == text[0] && t[|text|..] == rest;
    WsBlank(gap, t);
  }

  lemma EndsSpaced(gap: string, c: char, rest: string)
    requires Blank(gap) && c in {',', ']', '}'}
    ensures Ends(Spaced(gap, c, rest))
  {
    var t := Spaced(gap, c, rest);
    assert t[0] == if gap == "" then c else gap[0];
  }

  // ---------- Skipping ----------

  lemma SkipWs(lib: Numbers, s: string, depth: nat)
    ensures Skip(lib, Ws(s), depth) == Skip(lib, s, depth)
  {
    hide SkipItems, String, Number, Ws;
    WsTwice(s);
  }

  lemma KeyWs(s: string, capacity: nat)
    ensures Key(Ws(s), capacity) == Key(s, capacity)
  {
    hide Chars, Ws;
    WsTwice(s);
  }

  lemma SkipItemsWs(lib: Numbers, s: string, close: char, depth: nat)
    ensures SkipItems(lib, Ws(s), close, depth) == SkipItems(lib, s, close, depth)
  {
    hide Skip, Key, Ws, Token;
    KeyWs(s, SKIPPED_KEY_CAPACITY);
    SkipWs(lib, s, depth);
  }

  /** `skip` passes over exactly one value if it is nested at most 16 deep, and refuses it otherwise. */
  lemma {:induction false} SkipValue(lib: Numbers, gap: string, v: Value, depth: nat, rest: string)
    requires Blank(gap) && ValueOk(lib, v) && Ends(rest)
    ensures Skip(lib, gap + ValueThen(v, rest), depth) ==
            if depth + Depth(v) <= MAX_DEPTH then Some(rest) else None
    decreases v, 0
  {
    hide Skip, Ws, Blank, Ends;
    var t := ValueThen(v, rest);
    WsMore(gap, t);
    SkipWs(lib, gap + t, depth);
    SkipWs(lib, t, depth);
    match v {
      case Null => WordSkipped(lib, "null", depth, rest);
      case True => WordSkipped(lib, "true", depth, rest);
      case False => WordSkipped(lib, "false", depth, rest);
      case Num(text) => NumSkipped(lib, text, depth, rest);
      case Str(text) => StrSkipped(lib, text, depth, rest);
      case Arr(items, end) => SkipBracket(lib, '[', items, end, depth, rest);
      case Obj(members, end) => SkipBracket(lib, '{', members, end, depth, rest);
    }
  }

  lemma WordSkipped(lib: Numbers, word: string, depth: nat, rest: string)
    requires word in {"null", "true", "false"}
    ensures Skip(lib, word + rest, depth) == if depth < MAX_DEPTH then Some(rest) else None
  {
    hide SkipItems, String, Number;
    var t := word + rest;
    assert t[0] == word[0] && t[..|word|] == word && t[|word|..] == rest;
  }

  lemma StrSkipped(lib: Numbers, text: string, depth: nat, rest: string)
    requires Plain(text, SKIPPED_STRING_CAPACITY)
    ensures Skip(lib, Quoted(text, rest), depth) == if depth < MAX_DEPTH then Some(rest) else None
  {
    hide SkipItems, String, Number, Plain;
    var t := Quoted(text, rest);
    StringOf("", text, SKIPPED_STRING_CAPACITY, rest);
    assert "" + t == t && t[0] == '"';
  }

  lemma NumSkipped(lib: Numbers, text: string, depth: nat, rest: string)
    requires (exists x: real :: Numeral(lib, text, x)) && Ends(rest)
    ensures Skip(lib, text + rest, depth) == if depth < MAX_DEPTH then Some(rest) else None
  {
    var x: real :| Numeral(lib, text, x);
    var t := text + rest;
    assert t[0] == text[0];
    hide SkipItems, String, Number, Numeral, Ends;
    NumberOf(lib, "", text, x, rest);
    assert "" + t == t;
    DigitStarts(t);
  }

  /** What starts with a digit or a minus sign is no bracket, string or word. */
  lemma DigitStarts(t: string)
    requires t != "" && (t[0] == '-' || IsDigit(t[0]))
    ensures !StartsWith(t, "null") && !StartsWith(t, "true") && !StartsWith(t, "false")
    ensures t[0] !in {'{', '[', '"'} && Ws(t) == t
  {
  }

  /** A bracket opens: the value ends at once or its items follow. */
  lemma SkipOpens(lib: Numbers, open: char, inner: string, depth: nat)
    requires open in {'[', '{'}
    ensures Skip(lib, [open] + inner, depth) ==
            if depth >= MAX_DEPTH then None
            else if Ws(inner) != "" && Ws(inner)[0] == CloserOf(open) then Some(Ws(inner)[1..])
            else SkipItems(lib, inner, CloserOf(open), depth + 1)
  {
    hide SkipItems;
    var t := [open] + inner;
    assert t[0] == open && t[1..] == inner;
    SkipItemsWs(lib, inner, CloserOf(open), depth + 1);
  }

  lemma ValueStart(lib: Numbers, v: Value, rest: string)
    requires ValueOk(lib, v)
    ensures var t := ValueThen(v, rest); t != "" && !IsSpace(t[0]) && t[0] !in {']', '}'}
  {
    hide MembersThen;
  }

  lemma MembersStart(lib: Numbers, m: Members, keyed: bool, rest: string)
    requires MembersOk(lib, m) && m != Nil
    ensures var t := Ws(MembersThen(m, keyed, rest)); t != "" && t[0] !in {']', '}'}
  {
    hide ValueThen, Ws;
    var value := ValueThen(m.value, BehindFirst(m, keyed, rest));
    ValueStart(lib, m.value, BehindFirst(m, keyed, rest));
    if keyed {
      WsBlank(m.pad.key, Quoted(m.key, Spaced(m.pad.colon, ':', m.pad.value + value)));
    } else {
      WsBlank(m.pad.value, value);
    }
  }

  lemma {:induction false} SkipBracket(lib: Numbers, open: char, m: Members, end: string, depth: nat, rest: string)
    requires open in {'[', '{'} && MembersOk(lib, m) && Blank(end)
    ensures Skip(lib, [open] + MembersThen(m, open == '{', Spaced(end, CloserOf(open), rest)), depth) ==
            if depth + 1 + MembersDepth(m) <= MAX_DEPTH then Some(rest) else None
    decreases m, 2
  {
    hide Skip, SkipItems, Ws, MembersThen;
    var close := CloserOf(open);
    var inner := MembersThen(m, open == '{', Spaced(end, close, rest));
    SkipOpens(lib, open, inner, depth);
    if m == Nil {
      NoMembers(open == '{', Spaced(end, close, rest));
      WsBlank(end, [close] + rest);
      assert ([close] + rest)[1..] == rest;
    } else {
      MembersStart(lib, m, open == '{', Spaced(end, close, rest));
      SkipMembers(lib, m, close, end, depth + 1, rest);
    }
  }

  lemma NoMembers(keyed: bool, rest: string)
    ensures MembersThen(Nil, keyed, rest) == rest
  {
  }

  /** One turn of the loop over items. */
  lemma ItemsTurn(lib: Numbers, s: string, close: char, depth: nat, key: string, body: string)
    requires if close == '}' then Key(s, SKIPPED_KEY_CAPACITY) == Some((key, body)) else s == body
    ensures SkipItems(lib, s, close, depth) ==
            match Skip(lib, body, depth)
            case None => None
            case Some(back) =>
              if Token(back, close).Some? then Token(back, close) else
              match Token(back, ',')
              case None => None
              case Some(next) => SkipItems(lib, next, close, depth)
  {
    hide Skip, Key;
  }

  lemma BackTokens(m: Members, close: char, end: string, rest: string)
    requires m != Nil && PadOk(m.pad) && Blank(end) && close in {']', '}'}
    ensures var back := BehindFirst(m, close == '}', Spaced(end, close, rest));
            && Ends(back)
            && (m.rest == Nil ==> Token(back, close) == Some(rest))
            && (m.rest != Nil ==> Token(back, close) == None)
            && (m.rest != Nil ==> Token(back, ',') == Some(MembersThen(m.rest, close == '}', Spaced(end, close, rest))))
  {
    hide Token, MembersThen, Spaced, Ends;
    if m.rest == Nil {
      TokenOf(end, close, rest);
      EndsSpaced(end, close, rest);
    } else {
      var next := MembersThen(m.rest, close == '}', Spaced(end, close, rest));
      TokenOf(m.pad.comma, ',', next);
      EndsSpaced(m.pad.comma, ',', next);
    }
  }

  lemma {:induction false} SkipMembers(lib: Numbers, m: Members, close: char, end: string, depth: nat, rest: string)
    requires close in {']', '}'} && m != Nil && MembersOk(lib, m) && Blank(end)
    ensures SkipItems(lib, MembersThen(m, close == '}', Spaced(end, close, rest)), close, depth) ==
            if depth + MembersDepth(m) <= MAX_DEPTH then Some(rest) else None
    decreases m, 1
  {
    hide Skip, SkipItems, Key, Token, ValueThen, Plain, Spaced, BehindFirst, KeyThen, Ends, Blank;
    var keyed := close == '}';
    var last := Spaced(end, close, rest);
    var back := BehindFirst(m, keyed, last);
    var value := ValueThen(m.value, back);
    BackTokens(m, close, end, rest);
    PadParts(m.pad);
    if keyed {
      KeyOf(m.pad, m.key, SKIPPED_KEY_CAPACITY, value);
    }
    ItemsTurn(lib, MembersThen(m, keyed, last), close, depth, m.key, m.pad.value + value);
    SkipValue(lib, m.pad.value, m.value, depth, back);
    if m.rest != Nil {
      SkipMembers(lib, m.rest, close, end, depth, rest);
    }
  }

  lemma PadParts(pad: Pad)
    requires PadOk(pad)
    ensures Blank(pad.key) && Blank(pad.colon) && Blank(pad.value) && Blank(pad.comma)
  {
  }

  // ---------- Known fields ----------

  lemma NamesDiffer(i: Feature, j: Feature)
    requires i < j
    ensures FEATURE_NAMES[i] != FEATURE_NAMES[j]
  {
  }

  lemma {:induction false} FeatureIndexFrom(i: Feature, k: nat)
    requires k <= i
    ensures FeatureIndex(FEATURE_NAMES[i], k) == Some(i)
    decreases i - k
  {
    if k < i {
      NamesDiffer(k, i);
      FeatureIndexFrom(i, k + 1);
    }
  }

  lemma NamePlain(i: Feature)
    ensures Plain(FEATURE_NAMES[i], KEY_CAPACITY)
  {
    if i < 6 {
      EarlyNamePlain(i);
    } else {
      LateNamePlain(i);
    }
  }

  // A few names at a time.
  lemma EarlyNamePlain(i: Feature)
    requires i < 6
    ensures Plain(FEATURE_NAMES[i], KEY_CAPACITY)
  {
    if i < 2 {
    } else if i < 4 {
    }
  }

  lemma LateNamePlain(i: Feature)
    requires i >= 6
    ensures Plain(FEATURE_NAMES[i], KEY_CAPACITY)
  {
    if i < 8 {
    } else if i < 10 {
    }
  }

  /** What follows an element of a list: the next one behind a comma, or the end. */
  function ListBack(last: bool, pad: Pad, next: string, end: string, close: char, rest: string): string
  {
    if last then Spaced(end, close, rest) else Spaced(pad.comma, ',', next)
  }

  lemma ListGoesOn(last: bool, pad: Pad, next: string, end: string, close: char, rest: string)
    requires PadOk(pad) && Blank(end) && close in {']', '}'}
    ensures var back := ListBack(last, pad, next, end, close, rest);
            && Ends(back)
            && (last ==> Token(back, close) == Some(rest) && Token(back, ',') == None)
            && (!last ==> Token(back, close) == None && Token(back, ',') == Some(next))
  {
    hide Token, Spaced, Ends;
    if last {
      TokenOf(end, close, rest);
      EndsSpaced(end, close, rest);
    } else {
      TokenOf(pad.comma, ',', next);
      EndsSpaced(pad.comma, ',', next);
    }
  }

  /** One turn of the loop over names. */
  lemma NameTurn(gap: string, f: Feature, order: seq<Feature>, back: string)
    requires Blank(gap) && f !in order && |order| < FEATURE_COUNT
    ensures FeatureItems(gap + Quoted(FEATURE_NAMES[f], back), order) ==
            match Token(back, ',')
            case Some(next) => FeatureItems(next, order + [f])
            case None =>
              match Token(back, ']')
              case None => None
              case Some(rest) => Some((order + [f], rest))
  {
    NamePlain(f);
    FeatureIndexFrom(f, 0);
    hide String, Token, FeatureIndex, Plain, Quoted, Blank;
    StringOf(gap, FEATURE_NAMES[f], KEY_CAPACITY, back);
  }

  lemma NotListed(names: seq<Feature>, i: nat)
    requires i < |names| && DistinctNames(names)
    ensures names[i] !in names[..i] && names[..i] + [names[i]] == names[..i + 1]
  {
  }

  lemma {:induction false} NamesRead(names: seq<Feature>, pads: seq<Pad>, i: nat, end: string, rest: string)
    requires i < |names| == |pads| && |names| <= FEATURE_COUNT && DistinctNames(names) && PadsOk(pads) && Blank(end)
    ensures FeatureItems(NamesThen(names, pads, i, Spaced(end, ']', rest)), names[..i]) == Some((names, rest))
    decreases |names| - i
  {
    NotListed(names, i);
    hide FeatureItems, Token, Spaced, Quoted, Blank, DistinctNames;
    var last := i + 1 == |names|;
    var next := if last then "" else NamesThen(names, pads, i + 1, Spaced(end, ']', rest));
    assert PadOk(pads[i]);
    PadParts(pads[i]);
    ListGoesOn(last, pads[i], next, end, ']', rest);
    NameTurn(pads[i].value, names[i], names[..i], ListBack(last, pads[i], next, end, ']', rest));
    if last {
      assert names[..i + 1] == names;
    } else {
      NamesRead(names, pads, i + 1, end, rest);
    }
  }

  lemma {:induction false} WeightsRead(lib: Numbers, values: seq<real>, numerals: seq<string>, pads: seq<Pad>, i: nat, end: string, rest: string)
    requires i < |values| == |pads| && |values| <= FEATURE_COUNT + 1 && WeightsOk(lib, values, numerals) && PadsOk(pads) && Blank(end)
    ensures WeightItems(lib, WeightsThen(numerals, pads, i, Spaced(end, ']', rest)), values[..i]) == Some((values, rest))
    decreases |values| - i
  {
    hide Number, Token, Spaced, Blank, Numeral, Ends;
    var last := i + 1 == |values|;
    var next := if last then "" else WeightsThen(numerals, pads, i + 1, Spaced(end, ']', rest));
    var back := ListBack(last, pads[i], next, end, ']', rest);
    assert PadOk(pads[i]);
    PadParts(pads[i]);
    ListGoesOn(last, pads[i], next, end, ']', rest);
    NumberOf(lib, pads[i].value, numerals[i], values[i], back);
    assert values[..i] + [values[i]] == values[..i + 1];
    if last {
      assert values[..i + 1] == values;
    } else {
      WeightsRead(lib, values, numerals, pads, i + 1, end, rest);
    }
  }

  /** The entries from place `i` on put into a vector. */
  function Assigned(values: Values, entries: seq<Entry>, i: nat): Values
    requires i <= |entries|
    decreases |entries| - i
  {
    if i == |entries| then values else Assigned(values[entries[i].feature := entries[i].value], entries, i + 1)
  }

  /** The features of the first `i` entries. */
  function SeenIn(entries: seq<Entry>, i: nat): (r: set<Feature>)
    requires i <= |entries|
    ensures forall k :: 0 <= k < i ==> entries[k].feature in r
    ensures forall f :: f in r ==> exists k :: 0 <= k < i && entries[k].feature == f
  {
    if i == 0 then {} else SeenIn(entries, i - 1) + {entries[i - 1].feature}
  }

  /** The next entry is about a feature not seen yet. */
  lemma NotSeen(entries: seq<Entry>, i: nat)
    requires i < |entries| && DistinctEntries(entries)
    ensures entries[i].feature !in SeenIn(entries, i)
    ensures SeenIn(entries, i + 1) == SeenIn(entries, i) + {entries[i].feature}
  {
  }

  /** One turn of the loop over entries. */
  lemma EntryTurn(lib: Numbers, pad: Pad, f: Feature, text: string, x: real, seen: set<Feature>, values: Values, back: string)
    requires PadOk(pad) && Numeral(lib, text, x) && f !in seen && Ends(back)
    ensures MapItems(lib, KeyThen(pad, FEATURE_NAMES[f], text + back), seen, values) ==
            match Token(back, '}')
            case Some(rest) => Some((values[f := x], rest))
            case None =>
              match Token(back, ',')
              case None => None
              case Some(next) => MapItems(lib, next, seen + {f}, values[f := x])
  {
    NamePlain(f);
    FeatureIndexFrom(f, 0);
    PadParts(pad);
    hide Key, KeyThen, Number, Token, FeatureIndex, Numeral, Ends, Plain, Blank, PadOk;
    KeyOf(pad, FEATURE_NAMES[f], KEY_CAPACITY, text + back);
    NumberOf(lib, pad.value, text, x, back);
  }

  lemma EntriesNext(entries: seq<Entry>, numerals: seq<string>, pads: seq<Pad>, i: nat, end: string, close: char, rest: string)
    requires i < |entries| == |numerals| == |pads|
    ensures var last := i + 1 == |entries|;
            var next := if last then "" else EntriesThen(entries, numerals, pads, i + 1, Spaced(end, close, rest));
            EntriesThen(entries, numerals, pads, i, Spaced(end, close, rest)) ==
            KeyThen(pads[i], FEATURE_NAMES[entries[i].feature], numerals[i] + ListBack(last, pads[i], next, end, close, rest))
  {
    hide KeyThen, Spaced;
  }

  lemma AssignedNext(values: Values, entries: seq<Entry>, i: nat)
    requires i < |entries|
    ensures var put: Values := values[entries[i].feature := entries[i].value];
            Assigned(values, entries, i) == Assigned(put, entries, i + 1) && (i + 1 == |entries| ==> Assigned(put, entries, i + 1) == put)
  {
  }

  /** One entry read, the others being read from there on. */
  lemma EntriesStep(lib: Numbers, entries: seq<Entry>, numerals: seq<string>, pads: seq<Pad>, i: nat, values: Values, put: Values,
                    end: string, rest: string)
    requires i < |entries| == |numerals| == |pads| && PadOk(pads[i]) && Blank(end) && Numeral(lib, numerals[i], entries[i].value)
    requires DistinctEntries(entries) && put == values[entries[i].feature := entries[i].value]
    requires i + 1 < |entries| ==>
               MapItems(lib, EntriesThen(entries, numerals, pads, i + 1, Spaced(end, '}', rest)), SeenIn(entries, i + 1), put) ==
               Some((Assigned(put, entries, i + 1), rest))
    ensures MapItems(lib, EntriesThen(entries, numerals, pads, i, Spaced(end, '}', rest)), SeenIn(entries, i), values) ==
            Some((Assigned(values, entries, i), rest))
  {
    NotSeen(entries, i);
    EntriesNext(entries, numerals, pads, i, end, '}', rest);
    AssignedNext(values, entries, i);
    hide Token, MapItems, KeyThen, Spaced, SeenIn, DistinctEntries, Numeral, Blank, Ends, PadOk, ListBack, EntriesThen, Assigned;
    var last := i + 1 == |entries|;
    var next := if last then "" else EntriesThen(entries, numerals, pads, i + 1, Spaced(end, '}', rest));
    ListGoesOn(last, pads[i], next, end, '}', rest);
    EntryTurn(lib, pads[i], entries[i].feature, numerals[i], entries[i].value, SeenIn(entries, i), values,
              ListBack(last, pads[i], next, end, '}', rest));
  }

  lemma {:induction false} EntriesRead(lib: Numbers, entries: seq<Entry>, numerals: seq<string>, pads: seq<Pad>, i: nat, values: Values,
                                       end: string, rest: string)
    requires i < |entries| == |pads| && EntriesOk(lib, entries, numerals) && PadsOk(pads) && Blank(end)
    ensures MapItems(lib, EntriesThen(entries, numerals, pads, i, Spaced(end, '}', rest)), SeenIn(entries, i), values) ==
            Some((Assigned(values, entries, i), rest))
    decreases |entries| - i
  {
    hide MapItems, EntriesThen, Spaced, SeenIn, DistinctEntries, Numeral, Blank, PadOk, Assigned;
    var put: Values := values[entries[i].feature := entries[i].value];
    if i + 1 < |entries| {
      EntriesRead(lib, entries, numerals, pads, i + 1, put, end, rest);
    }
    EntriesStep(lib, entries, numerals, pads, i, values, put, end, rest);
  }

  // ---------- Whole documents ----------

  /** What one field does to the draft; nothing for a known field met before or a value nested too deep. */
  function Apply(d: Draft, item: Item): Option<Draft>
  {
    var kind := KindOf(ItemKey(item));
    if kind != Unknown && kind in d.fields then None else
    var d1 := d.(fields := d.fields + if kind == Unknown then {} else {kind});
    match item
    case Features(names, _, _) => Some(d1.(order := names))
    case Weights(values, _, _, _) => Some(d1.(weights := values))
    case Means(entries, _, _, _) => Some(d1.(means := Assigned(d.means, entries, 0)))
    case Scales(entries, _, _, _) => Some(d1.(scales := Assigned(d.scales, entries, 0)))
    case Tag => Some(d1)
    case Other(_, value) => if Depth(value) <= MAX_DEPTH then Some(d1) else None
  }

  function ApplyAll(d: Draft, doc: seq<Field>): Option<Draft>
    decreases |doc|
  {
    if doc == [] then Some(d) else
    match Apply(d, doc[0].item)
    case None => None
    case Some(d1) => ApplyAll(d1, doc[1..])
  }

  lemma MapRead(lib: Numbers, gap: string, entries: seq<Entry>, numerals: seq<string>, pads: seq<Pad>, end: string, values: Values, rest: string)
    requires Blank(gap) && EntriesOk(lib, entries, numerals) && |entries| == |numerals| == |pads| && PadsOk(pads) && Blank(end)
    ensures Map(lib, gap + ("{" + EntriesThen(entries, numerals, pads, 0, Spaced(end, '}', rest))), values) ==
            Some((Assigned(values, entries, 0), rest))
  {
    hide Token, MapItems, EntriesOk, EntriesThen, PadsOk, Blank;
    var inner := EntriesThen(entries, numerals, pads, 0, Spaced(end, '}', rest));
    TokenOf(gap, '{', inner);
    if entries == [] {
      NoEntries(numerals, pads, Spaced(end, '}', rest));
      TokenOf(end, '}', rest);
    } else {
      EntriesRead(lib, entries, numerals, pads, 0, values, end, rest);
      EntriesStart(entries, numerals, pads, Spaced(end, '}', rest));
    }
  }

  lemma NoEntries(numerals: seq<string>, pads: seq<Pad>, rest: string)
    requires |numerals| == |pads| == 0
    ensures EntriesThen([], numerals, pads, 0, rest) == rest
  {
  }

  /** A map that is not empty does not start with its end. */
  lemma EntriesStart(entries: seq<Entry>, numerals: seq<string>, pads: seq<Pad>, rest: string)
    requires 0 < |entries| == |numerals| == |pads| && PadsOk(pads)
    ensures Token(EntriesThen(entries, numerals, pads, 0, rest), '}') == None
  {
    hide Token, Blank;
    assert PadOk(pads[0]);
    PadParts(pads[0]);
    var inner := EntriesThen(entries, numerals, pads, 0, rest);
    var name := FEATURE_NAMES[entries[0].feature];
    var back := numerals[0] + if 1 == |entries| then rest else Spaced(pads[0].comma, ',', EntriesThen(entries, numerals, pads, 1, rest));
    TokenOf(pads[0].key, '"', name + ("\"" + Spaced(pads[0].colon, ':', pads[0].value + back)));
  }

  lemma NameListRead(lib: Numbers, gap: string, item: Item, d: Draft, rest: string)
    requires Blank(gap) && ItemOk(lib, item) && item.Features?
    ensures FieldValue(lib, gap + ItemThen(item, rest), FeatureList, d) == Some((d.(order := item.names), rest))
  {
    hide Token, FeatureItems, NamesThen, Blank;
    NamesRead(item.names, item.pads, 0, item.end, rest);
    TokenOf(gap, '[', NamesThen(item.names, item.pads, 0, Spaced(item.end, ']', rest)));
    assert item.names[..0] == [];
  }

  lemma WeightListRead(lib: Numbers, gap: string, item: Item, d: Draft, rest: string)
    requires Blank(gap) && ItemOk(lib, item) && item.Weights?
    ensures FieldValue(lib, gap + ItemThen(item, rest), WeightList, d) == Some((d.(weights := item.values), rest))
  {
    hide Token, WeightItems, WeightsThen, Blank, WeightsOk;
    WeightsRead(lib, item.values, item.numerals, item.pads, 0, item.end, rest);
    TokenOf(gap, '[', WeightsThen(item.numerals, item.pads, 0, Spaced(item.end, ']', rest)));
    assert item.values[..0] == [];
  }

  lemma MapFieldRead(lib: Numbers, gap: string, item: Item, d: Draft, rest: string)
    requires Blank(gap) && ItemOk(lib, item) && (item.Means? || item.Scales?)
    ensures FieldValue(lib, gap + ItemThen(item, rest), KindOf(ItemKey(item)), d) ==
            Some((if item.Means? then d.(means := Assigned(d.means, item.entries, 0))
                  else d.(scales := Assigned(d.scales, item.entries, 0)), rest))
  {
    hide Map, EntriesOk, Assigned, EntriesThen, Blank;
    MapRead(lib, gap, item.entries, item.numerals, item.pads, item.end, if item.Means? then d.means else d.scales, rest);
  }

  lemma TagRead(lib: Numbers, gap: string, d: Draft, rest: string)
    requires Blank(gap)
    ensures FieldValue(lib, gap + ItemThen(Tag, rest), KindTag, d) == Some((d, rest))
  {
    hide String, Blank;
    StringOf(gap, TAG, KEY_CAPACITY, rest);
  }

  lemma OtherRead(lib: Numbers, gap: string, item: Item, d: Draft, rest: string)
    requires Blank(gap) && ItemOk(lib, item) && item.Other? && Ends(rest)
    ensures FieldValue(lib, gap + ItemThen(item, rest), Unknown, d) == if Depth(item.value) <= MAX_DEPTH then Some((d, rest)) else None
  {
    hide Skip, Blank, Ends, ValueOk, Plain;
    SkipValue(lib, gap, item.value, 0, rest);
  }

  /** The reader on one field of a document. */
  lemma ItemRead(lib: Numbers, gap: string, item: Item, d: Draft, rest: string)
    requires Blank(gap) && ItemOk(lib, item) && LaidOut(item) && Ends(rest)
    requires KindOf(ItemKey(item)) == Unknown || KindOf(ItemKey(item)) !in d.fields
    ensures var kind := KindOf(ItemKey(item));
            FieldValue(lib, gap + ItemThen(item, rest), kind, d.(fields := d.fields + if kind == Unknown then {} else {kind})) ==
            match Apply(d, item)
            case None => None
            case Some(d') => Some((d', rest))
  {
    ItemKind(lib, item);
    hide FieldValue, ItemThen, Depth, Assigned, Blank, Ends, ItemOk;
    var kind := KindOf(ItemKey(item));
    var d1 := d.(fields := d.fields + if kind == Unknown then {} else {kind});
    match item {
      case Features(_, _, _) => NameListRead(lib, gap, item, d1, rest);
      case Weights(_, _, _, _) => WeightListRead(lib, gap, item, d1, rest);
      case Means(_, _, _, _) => MapFieldRead(lib, gap, item, d1, rest);
      case Scales(_, _, _, _) => MapFieldRead(lib, gap, item, d1, rest);
      case Tag => TagRead(lib, gap, d1, rest);
      case Other(_, _) => OtherRead(lib, gap, item, d1, rest);
    }
  }

  lemma ItemKind(lib: Numbers, item: Item)
    requires ItemOk(lib, item)
    ensures item.Other? ==> KindOf(ItemKey(item)) == Unknown
  {
  }

  lemma BehindTokens(fields: seq<Field>, rest: string)
    requires fields != [] && AllLaidOut(fields) && PadOk(fields[0].pad)
    ensures Ends(BehindField(fields, rest))
    ensures |fields| == 1 ==> Token(BehindField(fields, rest), '}') == Some(rest)
    ensures |fields| > 1 ==> Token(BehindField(fields, rest), '}') == None
    ensures |fields| > 1 ==> Token(BehindField(fields, rest), ',') == Some(FieldsThen(fields[1..], rest))
  {
    hide Token, FieldsThen, Spaced, Ends, LaidOut;
    var gap := fields[0].pad.comma;
    if |fields| == 1 {
      TokenOf(gap, '}', rest);
      EndsSpaced(gap, '}', rest);
    } else {
      TokenOf(gap, ',', FieldsThen(fields[1..], rest));
      EndsSpaced(gap, ',', FieldsThen(fields[1..], rest));
    }
  }

  lemma KeyPlain(lib: Numbers, item: Item)
    requires ItemOk(lib, item)
    ensures Plain(ItemKey(item), KEY_CAPACITY)
  {
  }

  lemma FieldKey(lib: Numbers, fields: seq<Field>, rest: string)
    requires FieldsOk(lib, fields) && AllLaidOut(fields)
    ensures Key(FieldsThen(fields, rest), KEY_CAPACITY) ==
            Some((ItemKey(fields[0].item), fields[0].pad.value + ItemThen(fields[0].item, BehindField(fields, rest))))
  {
    assert FieldOk(lib, fields[0]);
    KeyPlain(lib, fields[0].item);
    hide Key, KeyThen, ItemThen, BehindField, ItemKey, ItemOk, Plain, PadOk;
    KeyOf(fields[0].pad, ItemKey(fields[0].item), KEY_CAPACITY, ItemThen(fields[0].item, BehindField(fields, rest)));
  }

  /** The reader goes through a document field by field. */
  lemma {:induction false} FieldsRead(lib: Numbers, fields: seq<Field>, d: Draft, rest: string)
    requires FieldsOk(lib, fields) && AllLaidOut(fields)
    ensures Fields(lib, FieldsThen(fields, rest), d) ==
            match ApplyAll(d, fields)
            case None => None
            case Some(d') => Some((d', rest))
    decreases |fields|
  {
    assert FieldOk(lib, fields[0]);
    PadParts(fields[0].pad);
    hide Key, Token, FieldValue, FieldsThen, BehindField, ItemThen, ItemOk, Blank, Apply, KindOf, LaidOut, Ends, PadOk;
    FieldKey(lib, fields, rest);
    BehindTokens(fields, rest);
    var item := fields[0].item;
    var kind := KindOf(ItemKey(item));
    if kind == Unknown || kind !in d.fields {
      ItemRead(lib, fields[0].pad.value, item, d, BehindField(fields, rest));
      var d1 := Apply(d, item);
      if d1.Some? {
        if |fields| > 1 {
          FieldsRead(lib, fields[1..], d1.value, rest);
        } else {
          assert fields[1..] == [];
        }
      }
    } else {
      MetBefore(d, item);
    }
  }

  lemma MetBefore(d: Draft, item: Item)
    requires KindOf(ItemKey(item)) != Unknown && KindOf(ItemKey(item)) in d.fields
    ensures Apply(d, item) == None
  {
  }

  /** The model a complete draft stands for. */
  function ModelOf(d: Draft): Option<RankModel>
  {
    if KNOWN <= d.fields && |d.weights| == |d.order| + 1
    then Some(RankModel(d.means, d.scales, Placed(d.order, d.weights, |d.order|), true))
    else None
  }

  /** The reader finds nothing behind the object. */
  lemma TailRead(tail: string)
    requires TailOk(tail)
    ensures Ws(tail) == "" || Ws(tail)[0] == '\0'
  {
    hide Blank, Ws;
    var n :| 0 <= n <= |tail| && Blank(tail[..n]) && (n == |tail| || tail[n] == '\0');
    assert tail == tail[..n] + tail[n..];
    WsBlank(tail[..n], tail[n..]);
  }

  lemma LoadIsApply(lib: Numbers, doc: Document)
    requires DocumentOk(lib, doc) && AllLaidOut(doc.fields)
    ensures Load(lib, DocumentText(doc)) ==
            match ApplyAll(BlankDraft(), doc.fields)
            case None => None
            case Some(d) => ModelOf(d)
  {
    hide Token, Fields, FieldsThen, ApplyAll, Placed, FieldOk, Spaced, Blank, TailOk, BlankDraft, LaidOut;
    TokenOf(doc.head, '{', FieldsThen(doc.fields, doc.tail));
    FieldsRead(lib, doc.fields, BlankDraft(), doc.tail);
    TailRead(doc.tail);
  }

  // ---------- What a document means ----------

  function KindAt(doc: seq<Field>, i: nat): Kind
    requires i < |doc|
  {
    KindOf(ItemKey(doc[i].item))
  }

  predicate NoRepeats(doc: seq<Field>)
  {
    forall i, j :: 0 <= i < j < |doc| && KindAt(doc, i) != Unknown ==> KindAt(doc, i) != KindAt(doc, j)
  }

  predicate Shallow(doc: seq<Field>)
  {
    forall i :: 0 <= i < |doc| && doc[i].item.Other? ==> Depth(doc[i].item.value) <= MAX_DEPTH
  }

  function KindsIn(doc: seq<Field>): (r: set<Kind>)
  {
    set i | 0 <= i < |doc| && KindAt(doc, i) != Unknown :: KindAt(doc, i)
  }

  /** The item of a kind; the tag if there is none. */
  ghost function ItemOf(doc: seq<Field>, kind: Kind): Item
  {
    if i :| 0 <= i < |doc| && KindAt(doc, i) == kind then doc[i].item else Tag
  }

  ghost function NamesIn(doc: seq<Field>): seq<Feature>
  {
    var item := ItemOf(doc, FeatureList);
    if item.Features? then item.names else []
  }

  ghost function WeightsIn(doc: seq<Field>): seq<real>
  {
    var item := ItemOf(doc, WeightList);
    if item.Weights? then item.values else []
  }

  ghost function MeansIn(doc: seq<Field>): seq<Entry>
  {
    var item := ItemOf(doc, MeanMap);
    if item.Means? then item.entries else []
  }

  ghost function ScalesIn(doc: seq<Field>): seq<Entry>
  {
    var item := ItemOf(doc, ScaleMap);
    if item.Scales? then item.entries else []
  }

  /** What the reader asks of a document: each known field once, no value nested too deep, a weight more than names. */
  ghost predicate Complete(doc: seq<Field>)
  {
    NoRepeats(doc) && Shallow(doc) && KindsIn(doc) == KNOWN && |WeightsIn(doc)| == |NamesIn(doc)| + 1
  }

  ghost function Meaning(doc: seq<Field>): RankModel
    requires Complete(doc)
  {
    RankModel(Assigned(ZeroValues(), MeansIn(doc), 0), Assigned(OneValues(), ScalesIn(doc), 0),
              Placed(NamesIn(doc), WeightsIn(doc), |NamesIn(doc)|), true)
  }

  /** The document can be applied to the draft. */
  predicate Applies(d: Draft, doc: seq<Field>)
  {
    && NoRepeats(doc) && Shallow(doc)
    && forall i :: 0 <= i < |doc| && KindAt(doc, i) != Unknown ==> KindAt(doc, i) !in d.fields
  }

  lemma KindsSplit(doc: seq<Field>)
    requires doc != []
    ensures forall i :: 0 <= i < |doc| - 1 ==> KindAt(doc[1..], i) == KindAt(doc, i + 1)
    ensures KindsIn(doc) == (if KindAt(doc, 0) == Unknown then {} else {KindAt(doc, 0)}) + KindsIn(doc[1..])
  {
    hide KindOf, ItemKey;
    var tail := doc[1..];
    forall k | k in KindsIn(doc)
      ensures k in (if KindAt(doc, 0) == Unknown then {} else {KindAt(doc, 0)}) + KindsIn(tail)
    {
      var i :| 0 <= i < |doc| && KindAt(doc, i) != Unknown && k == KindAt(doc, i);
      if i > 0 {
        assert KindAt(tail, i - 1) == k;
      }
    }
    forall k | k in KindsIn(tail) ensures k in KindsIn(doc) {
      var i :| 0 <= i < |tail| && KindAt(tail, i) != Unknown && k == KindAt(tail, i);
      assert KindAt(doc, i + 1) == k;
    }
    if KindAt(doc, 0) != Unknown {
      assert KindAt(doc, 0) in KindsIn(doc);
    }
  }

  lemma TailApplies(d: Draft, doc: seq<Field>)
    requires doc != [] && Applies(d, doc)
    ensures var d1 := Apply(d, doc[0].item);
            d1.Some? && Applies(d1.value, doc[1..])
  {
    KindsSplit(doc);
    hide KindOf, ItemKey;
    var tail, d1 := doc[1..], Apply(d, doc[0].item);
    assert KindAt(doc, 0) != Unknown ==> KindAt(doc, 0) !in d.fields;
    assert d1.Some?;
    forall i | 0 <= i < |tail| && KindAt(tail, i) != Unknown ensures KindAt(tail, i) !in d1.value.fields {
      assert KindAt(tail, i) == KindAt(doc, i + 1);
    }
  }

  lemma WholeApplies(d: Draft, doc: seq<Field>)
    requires doc != []
    requires var d1 := Apply(d, doc[0].item);
             d1.Some? && Applies(d1.value, doc[1..])
    ensures Applies(d, doc)
  {
    KindsSplit(doc);
    ApplyFields(d, doc[0].item);
    hide KindOf, ItemKey, Apply;
    var tail := doc[1..];
    forall i | 0 < i < |doc| ensures KindAt(doc, i) == KindAt(tail, i - 1) && doc[i] == tail[i - 1] {
    }
    forall i | 0 <= i < |doc| && doc[i].item.Other? ensures Depth(doc[i].item.value) <= MAX_DEPTH {
      if i > 0 {
        assert tail[i - 1] == doc[i];
      }
    }
  }

  lemma ApplyFields(d: Draft, item: Item)
    requires Apply(d, item).Some?
    ensures var kind := KindOf(ItemKey(item));
            && Apply(d, item).value.fields == d.fields + (if kind == Unknown then {} else {kind})
            && (kind != Unknown ==> kind !in d.fields)
            && (item.Other? ==> Depth(item.value) <= MAX_DEPTH)
  {
  }

  /** The draft `r` holds what an item says, the maps having been put over those of `d`. */
  predicate HoldsItem(d: Draft, item: Item, r: Draft)
  {
    && (item.Features? ==> r.order == item.names)
    && (item.Weights? ==> r.weights == item.values)
    && (item.Means? ==> r.means == Assigned(d.means, item.entries, 0))
    && (item.Scales? ==> r.scales == Assigned(d.scales, item.entries, 0))
  }

  /** Which values a draft holds after a document. */
  predicate Holds(d: Draft, doc: seq<Field>, r: Draft)
  {
    r.fields == d.fields + KindsIn(doc) && forall i :: 0 <= i < |doc| ==> HoldsItem(d, doc[i].item, r)
  }

  /** Values that no field of a document touches. */
  predicate Untouched(d: Draft, doc: seq<Field>, r: Draft)
  {
    && (FeatureList !in KindsIn(doc) ==> r.order == d.order)
    && (WeightList !in KindsIn(doc) ==> r.weights == d.weights)
    && (MeanMap !in KindsIn(doc) ==> r.means == d.means)
    && (ScaleMap !in KindsIn(doc) ==> r.scales == d.scales)
  }

  /** An item's constructor and its kind tell the same. */
  predicate Classed(item: Item)
  {
    item.Other? ==> KindOf(item.key) == Unknown
  }

  lemma ClassedKind(item: Item)
    requires Classed(item)
    ensures KindOf(ItemKey(item)) == FeatureList <==> item.Features?
    ensures KindOf(ItemKey(item)) == WeightList <==> item.Weights?
    ensures KindOf(ItemKey(item)) == MeanMap <==> item.Means?
    ensures KindOf(ItemKey(item)) == ScaleMap <==> item.Scales?
    ensures KindOf(ItemKey(item)) == KindTag <==> item.Tag?
    ensures KindOf(ItemKey(item)) == Unknown <==> item.Other?
  {
  }

  lemma KindInAt(doc: seq<Field>, i: nat)
    requires i < |doc| && KindAt(doc, i) != Unknown
    ensures KindAt(doc, i) in KindsIn(doc)
  {
  }

  /** Behind a field of a known kind there is none of its kind. */
  lemma KindNotBehind(d: Draft, doc: seq<Field>)
    requires doc != [] && forall i :: 0 <= i < |doc| ==> Classed(doc[i].item)
    requires Applies(d, doc)
    ensures KindAt(doc, 0) != Unknown ==> KindAt(doc, 0) !in KindsIn(doc[1..])
    ensures forall i :: 0 < i < |doc| ==> doc[0].item.Other? || !SameCase(doc[0].item, doc[i].item)
  {
    KindsSplit(doc);
    ClassedKind(doc[0].item);
    hide KindOf, ItemKey, Classed;
    var tail := doc[1..];
    forall i | 0 <= i < |tail| ensures KindAt(doc, 0) != Unknown ==> KindAt(tail, i) != KindAt(doc, 0) {
      assert KindAt(tail, i) == KindAt(doc, i + 1);
    }
    forall i | 0 < i < |doc| ensures doc[0].item.Other? || !SameCase(doc[0].item, doc[i].item) {
      ClassedKind(doc[i].item);
      assert KindAt(doc, 0) != Unknown ==> KindAt(doc, 0) != KindAt(doc, i);
    }
  }

  /** What the first field leaves alone. */
  lemma ApplyLeaves(d: Draft, item: Item)
    requires Classed(item) && Apply(d, item).Some?
    ensures var d1 := Apply(d, item).value;
            && d1.order == (if item.Features? then item.names else d.order)
            && d1.weights == (if item.Weights? then item.values else d.weights)
            && d1.means == (if item.Means? then Assigned(d.means, item.entries, 0) else d.means)
            && d1.scales == (if item.Scales? then Assigned(d.scales, item.entries, 0) else d.scales)
  {
    hide Assigned;
  }

  lemma UntouchedStep(d: Draft, doc: seq<Field>, d1: Draft, r: Draft)
    requires doc != [] && Classed(doc[0].item) && Apply(d, doc[0].item) == Some(d1)
    requires Untouched(d1, doc[1..], r)
    ensures Untouched(d, doc, r)
  {
    KindsSplit(doc);
    ApplyLeaves(d, doc[0].item);
    ClassedKind(doc[0].item);
    hide KindOf, ItemKey, Classed, KindsIn, Apply;
  }

  lemma HoldsLater(d: Draft, first: Item, item: Item, d1: Draft, r: Draft)
    requires Classed(first) && Apply(d, first) == Some(d1) && HoldsItem(d1, item, r)
    requires first.Other? || !SameCase(first, item)
    ensures HoldsItem(d, item, r)
  {
    ApplyLeaves(d, first);
    hide Apply, Classed, Assigned;
  }

  lemma HoldsFirst(d: Draft, doc: seq<Field>, d1: Draft, r: Draft)
    requires doc != [] && Classed(doc[0].item) && Apply(d, doc[0].item) == Some(d1) && Untouched(d1, doc[1..], r)
    requires KindAt(doc, 0) != Unknown ==> KindAt(doc, 0) !in KindsIn(doc[1..])
    ensures HoldsItem(d, doc[0].item, r)
  {
    ApplyLeaves(d, doc[0].item);
    ClassedKind(doc[0].item);
    assert KindAt(doc, 0) == KindOf(ItemKey(doc[0].item));
    hide Apply, Classed, Assigned, KindsIn, KindAt, KindOf, ItemKey;
  }

  /** The first field, then the rest. */
  lemma FieldsAdd(d: Draft, doc: seq<Field>, d1: Draft)
    requires doc != [] && Apply(d, doc[0].item) == Some(d1)
    ensures d1.fields + KindsIn(doc[1..]) == d.fields + KindsIn(doc)
  {
    KindsSplit(doc);
    ApplyFields(d, doc[0].item);
    assert KindAt(doc, 0) == KindOf(ItemKey(doc[0].item));
    hide KindsIn, KindAt, KindOf, ItemKey, Apply;
  }

  lemma HoldsStep(d: Draft, doc: seq<Field>, d1: Draft, r: Draft)
    requires doc != [] && forall i :: 0 <= i < |doc| ==> Classed(doc[i].item)
    requires Applies(d, doc) && Apply(d, doc[0].item) == Some(d1)
    requires Holds(d1, doc[1..], r) && Untouched(d1, doc[1..], r)
    ensures Holds(d, doc, r)
  {
    hide Applies, KindOf, ItemKey, Classed, KindsIn, KindAt, Apply, Untouched, HoldsItem, SameCase;
    KindNotBehind(d, doc);
    FieldsAdd(d, doc, d1);
    HoldsFirst(d, doc, d1, r);
    forall i | 0 < i < |doc| ensures HoldsItem(d, doc[i].item, r) {
      assert doc[i] == doc[1..][i - 1];
      HoldsLater(d, doc[0].item, doc[i].item, d1, r);
    }
  }

  predicate SameCase(a: Item, b: Item)
  {
    || (a.Features? && b.Features?) || (a.Weights? && b.Weights?) || (a.Means? && b.Means?)
    || (a.Scales? && b.Scales?) || (a.Tag? && b.Tag?) || (a.Other? && b.Other?)
  }

  lemma {:induction false} ApplyAllMeans(d: Draft, doc: seq<Field>)
    requires forall i :: 0 <= i < |doc| ==> Classed(doc[i].item)
    ensures ApplyAll(d, doc).Some? <==> Applies(d, doc)
    ensures ApplyAll(d, doc).Some? ==> Holds(d, doc, ApplyAll(d, doc).value) && Untouched(d, doc, ApplyAll(d, doc).value)
    decreases |doc|
  {
    hide Apply, Classed, KindOf, ItemKey;
    if doc == [] {
      assert KindsIn(doc) == {};
    } else {
      hide Applies, Holds, Untouched;
      var d1 := Apply(d, doc[0].item);
      if Applies(d, doc) {
        TailApplies(d, doc);
      }
      if d1.Some? {
        ApplyAllMeans(d1.value, doc[1..]);
        if Applies(d1.value, doc[1..]) {
          WholeApplies(d, doc);
          HoldsStep(d, doc, d1.value, ApplyAll(d1.value, doc[1..]).value);
          UntouchedStep(d, doc, d1.value, ApplyAll(d1.value, doc[1..]).value);
        }
      }
    }
  }

  lemma ItemOfIs(doc: seq<Field>, i: nat)
    requires i < |doc| && NoRepeats(doc) && KindAt(doc, i) != Unknown
    ensures ItemOf(doc, KindAt(doc, i)) == doc[i].item
  {
    var j :| 0 <= j < |doc| && KindAt(doc, j) == KindAt(doc, i) && ItemOf(doc, KindAt(doc, i)) == doc[j].item;
    assert i == j;
  }

  lemma PlaceOf(doc: seq<Field>, kind: Kind) returns (i: nat)
    requires kind in KindsIn(doc)
    ensures i < |doc| && KindAt(doc, i) == kind && kind != Unknown
  {
    i :| 0 <= i < |doc| && KindAt(doc, i) != Unknown && KindAt(doc, i) == kind;
  }

  lemma KindsKnown(doc: seq<Field>)
    ensures KindsIn(doc) <= KNOWN
  {
    hide KindAt;
    forall k | k in KindsIn(doc) ensures k in KNOWN {
      var i := PlaceOf(doc, k);
    }
  }

  /** The values of a document without repeats. */
  lemma ValuesHeld(doc: seq<Field>, r: Draft)
    requires forall i :: 0 <= i < |doc| ==> Classed(doc[i].item)
    requires NoRepeats(doc) && KNOWN <= KindsIn(doc) && Holds(BlankDraft(), doc, r)
    ensures r.order == NamesIn(doc) && r.weights == WeightsIn(doc)
    ensures r.means == Assigned(ZeroValues(), MeansIn(doc), 0) && r.scales == Assigned(OneValues(), ScalesIn(doc), 0)
  {
    hide KindOf, ItemKey, NoRepeats, Classed, Assigned, ItemOf, KindsIn;
    var n := PlaceOf(doc, FeatureList);
    var w := PlaceOf(doc, WeightList);
    var m := PlaceOf(doc, MeanMap);
    var s := PlaceOf(doc, ScaleMap);
    ItemOfIs(doc, n);
    ItemOfIs(doc, w);
    ItemOfIs(doc, m);
    ItemOfIs(doc, s);
    ClassedKind(doc[n].item);
    ClassedKind(doc[w].item);
    ClassedKind(doc[m].item);
    ClassedKind(doc[s].item);
  }

  lemma AllClassed(lib: Numbers, doc: seq<Field>)
    requires FieldsOk(lib, doc)
    ensures forall i :: 0 <= i < |doc| ==> Classed(doc[i].item)
  {
    hide KindOf;
    forall i | 0 <= i < |doc| ensures Classed(doc[i].item) {
      assert FieldOk(lib, doc[i]);
    }
  }

  lemma BlankApplies(fields: seq<Field>)
    ensures Applies(BlankDraft(), fields) <==> NoRepeats(fields) && Shallow(fields)
  {
  }

  lemma AllKnown(fields: seq<Field>)
    ensures KNOWN <= KindsIn(fields) <==> KindsIn(fields) == KNOWN
  {
    KindsKnown(fields);
    hide KindsIn;
  }

  lemma HeldIsMeaning(fields: seq<Field>, r: Draft)
    requires forall i :: 0 <= i < |fields| ==> Classed(fields[i].item)
    requires NoRepeats(fields) && Shallow(fields) && Holds(BlankDraft(), fields, r)
    ensures ModelOf(r) == if Complete(fields) then Some(Meaning(fields)) else None
  {
    hide NoRepeats, Shallow, KindsIn, NamesIn, WeightsIn, MeansIn, ScalesIn, Classed, Assigned, Placed, Holds, BlankDraft;
    AllKnown(fields);
    HoldsFields(fields, r);
    if KNOWN <= r.fields {
      ValuesHeld(fields, r);
    }
  }

  /** Applying fields to a blank draft gives the model they mean, exactly when they are complete. */
  lemma AppliedMeans(lib: Numbers, fields: seq<Field>)
    requires FieldsOk(lib, fields)
    ensures (match ApplyAll(BlankDraft(), fields)
             case None => None
             case Some(d) => ModelOf(d)) == if Complete(fields) then Some(Meaning(fields)) else None
  {
    AllClassed(lib, fields);
    hide FieldsOk, NoRepeats, Shallow, Classed, ApplyAll, Holds, Untouched, Applies, BlankDraft, ModelOf, Meaning, KindsIn, WeightsIn, NamesIn;
    ApplyAllMeans(BlankDraft(), fields);
    BlankApplies(fields);
    if ApplyAll(BlankDraft(), fields).Some? {
      HeldIsMeaning(fields, ApplyAll(BlankDraft(), fields).value);
    }
  }

  /** The reader loads exactly the complete documents, whatever their layout, and loads what they mean: unlisted means
      are 0, unlisted scales 1, weights go to the features of the same place in the list. */
  lemma LoadDocument(lib: Numbers, doc: Document)
    requires DocumentOk(lib, doc)
    ensures Load(lib, DocumentText(doc)) == if Complete(doc.fields) then Some(Meaning(doc.fields)) else None
  {
    LoadIsApply(lib, doc);
    hide ApplyAll, Complete, Meaning, ModelOf, Load, DocumentText, BlankDraft, FieldOk;
    AppliedMeans(lib, doc.fields);
  }

  lemma HoldsFields(doc: seq<Field>, r: Draft)
    requires Holds(BlankDraft(), doc, r)
    ensures r.fields == KindsIn(doc)
  {
  }

  // ---------- Order does not matter ----------

  /** The same field, laid out differently; of an unknown one it matters only whether it is nested too deep. */
  predicate SameItem(a: Item, b: Item)
  {
    match (a, b)
    case (Features(names, _, _), Features(names', _, _)) => names == names'
    case (Weights(values, _, _, _), Weights(values', _, _, _)) => values == values'
    case (Means(entries, _, _, _), Means(entries', _, _, _)) => entries == entries'
    case (Scales(entries, _, _, _), Scales(entries', _, _, _)) => entries == entries'
    case (Tag, Tag) => true
    case (Other(key, value), Other(key', value')) => key == key' && (Depth(value) <= MAX_DEPTH <==> Depth(value') <= MAX_DEPTH)
    case _ => false
  }

  /** Permutations of each other's fields: `b[i]` says what `a[p[i]]` says, and back. */
  predicate Permuted(a: seq<Field>, b: seq<Field>, p: seq<nat>, q: seq<nat>)
  {
    && |a| == |b| == |p| == |q|
    && (forall i :: 0 <= i < |a| ==> p[i] < |a| && q[i] < |a|)
    && (forall i :: 0 <= i < |a| ==> q[p[i]] == i && p[q[i]] == i)
    && (forall i :: 0 <= i < |a| ==> SameItem(b[i].item, a[p[i]].item))
  }

  lemma SameBack(a: Item, b: Item)
    ensures SameItem(a, b) <==> SameItem(b, a)
    ensures SameItem(a, b) ==> ItemKey(a) == ItemKey(b)
  {
  }

  lemma PermutedBack(a: seq<Field>, b: seq<Field>, p: seq<nat>, q: seq<nat>)
    requires Permuted(a, b, p, q)
    ensures Permuted(b, a, q, p)
  {
    forall i | 0 <= i < |a| ensures SameItem(a[i].item, b[q[i]].item) {
      assert p[q[i]] == i;
      SameBack(b[q[i]].item, a[i].item);
    }
  }

  lemma KindsDiffer(doc: seq<Field>, i: nat, j: nat)
    requires NoRepeats(doc) && i < |doc| && j < |doc| && i != j && KindAt(doc, i) != Unknown
    ensures KindAt(doc, i) != KindAt(doc, j)
  {
  }

  lemma PermutedAt(a: seq<Field>, b: seq<Field>, p: seq<nat>, q: seq<nat>, i: nat, j: nat)
    requires Permuted(a, b, p, q) && i < j < |b|
    ensures p[i] < |a| && p[j] < |a| && p[i] != p[j]
    ensures KindAt(b, i) == KindAt(a, p[i]) && KindAt(b, j) == KindAt(a, p[j])
  {
    assert q[p[i]] == i && q[p[j]] == j;
    SameBack(b[i].item, a[p[i]].item);
    SameBack(b[j].item, a[p[j]].item);
  }

  lemma PermutedNoRepeats(a: seq<Field>, b: seq<Field>, p: seq<nat>, q: seq<nat>)
    requires Permuted(a, b, p, q) && NoRepeats(a)
    ensures NoRepeats(b)
  {
    forall i, j | 0 <= i < j < |b| && KindAt(b, i) != Unknown ensures KindAt(b, i) != KindAt(b, j) {
      hide KindAt, NoRepeats, Permuted;
      PermutedAt(a, b, p, q, i, j);
      KindsDiffer(a, p[i], p[j]);
    }
  }

  lemma PermutedItem(a: seq<Field>, b: seq<Field>, p: seq<nat>, q: seq<nat>, k: Kind)
    requires Permuted(a, b, p, q) && NoRepeats(a) && NoRepeats(b) && k in KindsIn(b)
    ensures k in KindsIn(a) && SameItem(ItemOf(b, k), ItemOf(a, k))
  {
    hide KindOf, ItemKey, ItemOf, NoRepeats, KindsIn, SameItem;
    var i := PlaceOf(b, k);
    SameBack(b[i].item, a[p[i]].item);
    assert KindAt(b, i) == KindAt(a, p[i]);
    KindInAt(a, p[i]);
    ItemOfIs(b, i);
    ItemOfIs(a, p[i]);
  }

  lemma PermutedShallow(a: seq<Field>, b: seq<Field>, p: seq<nat>, q: seq<nat>)
    requires Permuted(a, b, p, q) && Shallow(a)
    ensures Shallow(b)
  {
    hide Depth;
    forall i | 0 <= i < |b| && b[i].item.Other? ensures Depth(b[i].item.value) <= MAX_DEPTH {
      assert SameItem(b[i].item, a[p[i]].item);
    }
  }

  lemma PermutedComplete(a: seq<Field>, b: seq<Field>, p: seq<nat>, q: seq<nat>)
    requires Permuted(a, b, p, q) && Complete(a)
    ensures Complete(b) && Meaning(b) == Meaning(a)
  {
    hide KindsIn, NoRepeats, Shallow, ItemOf, Assigned, Placed, Permuted;
    PermutedNoRepeats(a, b, p, q);
    PermutedShallow(a, b, p, q);
    PermutedBack(a, b, p, q);
    forall k | k in KNOWN ensures k in KindsIn(b) && SameItem(ItemOf(a, k), ItemOf(b, k)) {
      PermutedItem(b, a, q, p, k);
    }
    KindsKnown(b);
    assert FeatureList in KNOWN && WeightList in KNOWN && MeanMap in KNOWN && ScaleMap in KNOWN;
  }

  /** Permuting the top-level fields, and changing white space and the spelling of numbers, never changes what is loaded. */
  lemma FieldOrderIrrelevant(lib: Numbers, a: Document, b: Document, p: seq<nat>, q: seq<nat>)
    requires DocumentOk(lib, a) && DocumentOk(lib, b) && Permuted(a.fields, b.fields, p, q)
    ensures Load(lib, DocumentText(a)) == Load(lib, DocumentText(b))
  {
    hide Complete, Meaning, Load, Permuted, DocumentText;
    LoadDocument(lib, a);
    LoadDocument(lib, b);
    if Complete(a.fields) {
      PermutedComplete(a.fields, b.fields, p, q);
    }
    if Complete(b.fields) {
      PermutedBack(a.fields, b.fields, p, q);
      PermutedComplete(b.fields, a.fields, q, p);
    }
  }

  /** Where a vector ends up: the number given to a feature, or what was there before. */
  lemma {:induction false} AssignedAt(values: Values, entries: seq<Entry>, i: nat, f: Feature)
    requires i <= |entries| && DistinctEntries(entries)
    ensures (forall k :: i <= k < |entries| ==> entries[k].feature != f) ==> Assigned(values, entries, i)[f] == values[f]
    ensures forall k :: i <= k < |entries| && entries[k].feature == f ==> Assigned(values, entries, i)[f] == entries[k].value
    decreases |entries| - i
  {
    if i < |entries| {
      AssignedAt(values[entries[i].feature := entries[i].value], entries, i + 1, f);
    }
  }

  lemma {:induction false} PlacedAt(order: seq<Feature>, weights: seq<real>, n: nat, f: Feature)
    requires n <= |order| && |weights| == |order| + 1 && DistinctNames(order)
    ensures Placed(order, weights, n)[0] == weights[0]
    ensures (forall k :: 0 <= k < n ==> order[k] != f) ==> Placed(order, weights, n)[f + 1] == 0.0
    ensures forall k :: 0 <= k < n ==> order[k] == f ==> Placed(order, weights, n)[f + 1] == weights[k + 1]
  {
    if n > 0 {
      PlacedAt(order, weights, n - 1, f);
    }
  }

  function EntrySet(entries: seq<Entry>): set<Entry>
  {
    set i | 0 <= i < |entries| :: entries[i]
  }

  /** Features paired with their weights. */
  function Paired(names: seq<Feature>, weights: seq<real>): seq<Entry>
    requires |weights| == |names| + 1
  {
    seq(|names|, i requires 0 <= i < |names| => Entry(names[i], weights[i + 1]))
  }

  lemma SameEntries(values: Values, a: seq<Entry>, b: seq<Entry>)
    requires DistinctEntries(a) && DistinctEntries(b) && EntrySet(a) == EntrySet(b)
    ensures Assigned(values, a, 0) == Assigned(values, b, 0)
  {
    forall f: Feature ensures Assigned(values, a, 0)[f] == Assigned(values, b, 0)[f] {
      AssignedAt(values, a, 0, f);
      AssignedAt(values, b, 0, f);
      if i :| 0 <= i < |a| && a[i].feature == f {
        assert a[i] in EntrySet(b);
      } else if i :| 0 <= i < |b| && b[i].feature == f {
        assert b[i] in EntrySet(a);
      }
    }
  }

  /** A pair of one list is found in the other. */
  lemma PairFound(names: seq<Feature>, weights: seq<real>, i: nat, names': seq<Feature>, weights': seq<real>) returns (j: nat)
    requires |weights| == |names| + 1 && |weights'| == |names'| + 1
    requires EntrySet(Paired(names, weights)) <= EntrySet(Paired(names', weights')) && i < |names|
    ensures j < |names'| && names'[j] == names[i] && weights'[j + 1] == weights[i + 1]
  {
    var e := Paired(names, weights)[i];
    assert e in EntrySet(Paired(names, weights));
    j :| 0 <= j < |names'| && Paired(names', weights')[j] == e;
    assert e == Entry(names[i], weights[i + 1]) == Entry(names'[j], weights'[j + 1]);
  }

  /** The weight of a listed feature. */
  lemma PlacedListed(order: seq<Feature>, weights: seq<real>, k: nat)
    requires k < |order| && |weights| == |order| + 1 && DistinctNames(order)
    ensures Placed(order, weights, |order|)[order[k] + 1] == weights[k + 1]
  {
    hide Placed;
    PlacedAt(order, weights, |order|, order[k]);
  }

  /** The weight of a feature that is not listed. */
  lemma PlacedMissing(order: seq<Feature>, weights: seq<real>, f: Feature)
    requires |weights| == |order| + 1 && DistinctNames(order) && f !in order
    ensures Placed(order, weights, |order|)[f + 1] == 0.0
  {
    hide Placed;
    PlacedAt(order, weights, |order|, f);
  }

  /** Half of `SamePairs`: a listed feature weighs the same in both. */
  lemma PairedAt(names: seq<Feature>, weights: seq<real>, f: Feature, names': seq<Feature>, weights': seq<real>)
    requires |weights| == |names| + 1 && |weights'| == |names'| + 1 && DistinctNames(names) && DistinctNames(names')
    requires EntrySet(Paired(names, weights)) <= EntrySet(Paired(names', weights')) && f in names
    ensures f in names' && Placed(names, weights, |names|)[f + 1] == Placed(names', weights', |names'|)[f + 1]
  {
    hide Placed, EntrySet, Paired, DistinctNames;
    var i :| 0 <= i < |names| && names[i] == f;
    var j := PairFound(names, weights, i, names', weights');
    PlacedListed(names, weights, i);
    PlacedListed(names', weights', j);
  }

  lemma SameWeight(names: seq<Feature>, weights: seq<real>, names': seq<Feature>, weights': seq<real>, f: Feature)
    requires |weights| == |names| + 1 && |weights'| == |names'| + 1 && DistinctNames(names) && DistinctNames(names')
    requires EntrySet(Paired(names, weights)) == EntrySet(Paired(names', weights'))
    ensures Placed(names, weights, |names|)[f + 1] == Placed(names', weights', |names'|)[f + 1]
  {
    hide Placed, EntrySet, Paired, DistinctNames;
    if f in names {
      PairedAt(names, weights, f, names', weights');
    } else if f in names' {
      PairedAt(names', weights', f, names, weights);
    } else {
      PlacedMissing(names, weights, f);
      PlacedMissing(names', weights', f);
    }
  }

  lemma SamePairs(names: seq<Feature>, weights: seq<real>, names': seq<Feature>, weights': seq<real>)
    requires |weights| == |names| + 1 && |weights'| == |names'| + 1 && DistinctNames(names) && DistinctNames(names')
    requires weights[0] == weights'[0] && EntrySet(Paired(names, weights)) == EntrySet(Paired(names', weights'))
    ensures Placed(names, weights, |names|) == Placed(names', weights', |names'|)
  {
    hide Placed, EntrySet, Paired, DistinctNames;
    var p, p' := Placed(names, weights, |names|), Placed(names', weights', |names'|);
    PlacedAt(names, weights, |names|, 0);
    PlacedAt(names', weights', |names'|, 0);
    forall j | 0 <= j < FEATURE_COUNT + 1 ensures p[j] == p'[j] {
      if j > 0 {
        SameWeight(names, weights, names', weights', j - 1);
      }
    }
  }

  /** Documents that give each feature the same numbers, in whatever order and among whatever other fields. */
  ghost predicate SameNumbers(a: seq<Field>, b: seq<Field>)
    requires Complete(a) && Complete(b)
  {
    && WeightsIn(a)[0] == WeightsIn(b)[0]
    && EntrySet(Paired(NamesIn(a), WeightsIn(a))) == EntrySet(Paired(NamesIn(b), WeightsIn(b)))
    && EntrySet(MeansIn(a)) == EntrySet(MeansIn(b))
    && EntrySet(ScalesIn(a)) == EntrySet(ScalesIn(b))
  }

  lemma KnownItem(lib: Numbers, doc: seq<Field>, kind: Kind)
    requires FieldsOk(lib, doc) && Complete(doc) && kind in KNOWN
    ensures ItemOk(lib, ItemOf(doc, kind))
  {
    hide KindOf, ItemKey, ItemOf, KindsIn, NoRepeats, ItemOk, PadOk;
    var i := PlaceOf(doc, kind);
    ItemOfIs(doc, i);
    assert FieldOk(lib, doc[i]);
  }

  lemma ItemsDistinct(lib: Numbers, doc: seq<Field>)
    requires FieldsOk(lib, doc) && Complete(doc)
    ensures DistinctNames(NamesIn(doc)) && DistinctEntries(MeansIn(doc)) && DistinctEntries(ScalesIn(doc))
  {
    KnownItem(lib, doc, FeatureList);
    KnownItem(lib, doc, MeanMap);
    KnownItem(lib, doc, ScaleMap);
    hide ItemOf, FieldsOk, Complete, Numeral, WeightsOk, PadsOk, LaidOut, Plain, KindOf, ValueOk;
  }

  /** Permuting feature names together with their weights, or the entries of a map, changes neither the model that is
      loaded nor any score. */
  lemma PairOrderIrrelevant(lib: Numbers, a: Document, b: Document, v: Values, score: real)
    requires DocumentOk(lib, a) && DocumentOk(lib, b)
    requires Complete(a.fields) && Complete(b.fields) && SameNumbers(a.fields, b.fields)
    ensures Load(lib, DocumentText(a)) == Load(lib, DocumentText(b)) == Some(Meaning(a.fields))
    ensures RankScore(Meaning(a.fields), v, score) == RankScore(Meaning(b.fields), v, score)
  {
    LoadDocument(lib, a);
    LoadDocument(lib, b);
    ItemsDistinct(lib, a.fields);
    ItemsDistinct(lib, b.fields);
    hide DocumentOk, DocumentText, Load, NamesIn, WeightsIn, MeansIn, ScalesIn, EntrySet, Paired, Assigned, Placed;
    SameEntries(ZeroValues(), MeansIn(a.fields), MeansIn(b.fields));
    SameEntries(OneValues(), ScalesIn(a.fields), ScalesIn(b.fields));
    SamePairs(NamesIn(a.fields), WeightsIn(a.fields), NamesIn(b.fields), WeightsIn(b.fields));
  }
}
