// Whatever file the model reader accepts is a document: the converse of reading documents (src/rank_model.c:9-109).
module ModelTexts {
  import opened Bytes
  import opened RankModels
  import opened ModelFiles
  import opened ModelDocuments

  // ---------- The C library ----------

  /** `scan` takes the whole of `text` when `rest` follows. */
  predicate Takes(lib: Numbers, text: string, rest: string)
  {
    lib.scan(text + rest).Some? && lib.scan(text + rest).value.1 == |text|
  }

  /** What `strtod` makes of a numeral does not depend on which delimiter or white space ends it. */
  ghost predicate Local(lib: Numbers)
  {
    forall text: string, rest: string, other: string ::
      Takes(lib, text, rest) && Ends(rest) && Ends(other) ==> lib.scan(text + other) == lib.scan(text + rest)
  }

  lemma NumeralHere(lib: Numbers, text: string, x: real, rest: string)
    requires Local(lib) && text != "" && (text[0] == '-' || IsDigit(text[0])) && Ends(rest)
    requires lib.scan(text + rest) == Some((x, |text|))
    ensures Numeral(lib, text, x)
  {
    hide Ends;
    assert Takes(lib, text, rest);
  }

  // ---------- Characters ----------

  /** White space is what C counts as such, digits are the ten decimal ones. */
  lemma Classes(c: char)
    ensures IsSpace(c) <==> c in {' ', '\t', '\n', '\r', 11 as char, 12 as char}
    ensures IsDigit(c) <==> c in {'0', '1', '2', '3', '4', '5', '6', '7', '8', '9'}
  {
  }

  // ---------- Tokens ----------

  lemma {:induction false} WsLists(s: string) returns (gap: string)
    ensures Blank(gap) && s == gap + Ws(s)
  {
    if s != "" && IsSpace(s[0]) {
      gap := WsLists(s[1..]);
      gap := [s[0]] + gap;
    } else {
      gap := "";
    }
  }

  lemma TokenLists(s: string, c: char) returns (gap: string)
    requires Token(s, c).Some?
    ensures Blank(gap) && s == Spaced(gap, c, Token(s, c).value)
  {
    hide Ws, Blank;
    gap := WsLists(s);
    assert Ws(s) == [c] + Ws(s)[1..];
  }

  lemma TokenEnds(s: string, c: char)
    requires Token(s, c).Some? && c in {',', ']', '}'}
    ensures Ends(s)
  {
    hide Token, Ends, Blank;
    var gap := TokenLists(s, c);
    EndsSpaced(gap, c, Token(s, c).value);
  }

  lemma {:induction false} CharsList(s: string, room: nat)
    requires room > 0 && Chars(s, room).Some?
    ensures var (chars, rest) := Chars(s, room).value; Plain(chars, room) && s == chars + ("\"" + rest)
  {
    if s[0] == '"' {
      assert s == "" + ("\"" + s[1..]);
    } else {
      CharsList(s[1..], room - 1);
      var (chars, rest) := Chars(s[1..], room - 1).value;
      assert s == [s[0]] + s[1..];
    }
  }

  lemma StringLists(s: string, capacity: nat) returns (gap: string)
    requires capacity > 0 && String(s, capacity).Some?
    ensures var (chars, rest) := String(s, capacity).value; Blank(gap) && Plain(chars, capacity) && s == gap + Quoted(chars, rest)
  {
    hide Token, Chars, Plain, Blank;
    gap := TokenLists(s, '"');
    CharsList(Token(s, '"').value, capacity);
  }

  lemma KeyLists(s: string, capacity: nat) returns (gap: string, colon: string)
    requires capacity > 0 && Key(s, capacity).Some?
    ensures var (key, rest) := Key(s, capacity).value;
            Blank(gap) && Blank(colon) && Plain(key, capacity) && s == gap + Quoted(key, Spaced(colon, ':', rest))
  {
    hide Token, String, Plain, Blank, Quoted, Spaced;
    gap := StringLists(s, capacity);
    colon := TokenLists(String(s, capacity).value.1, ':');
  }

  lemma NumberLists(lib: Numbers, s: string) returns (gap: string, text: string)
    requires Local(lib) && Number(lib, s).Some? && Ends(Number(lib, s).value.1)
    ensures var (x, rest) := Number(lib, s).value; Blank(gap) && Numeral(lib, text, x) && s == gap + (text + rest)
  {
    hide Ws, Blank, Ends, Local, Numeral;
    gap := WsLists(s);
    var t := Ws(s);
    var (x, n) := lib.scan(t).value;
    text := t[..n];
    assert t == text + t[n..];
    NumeralHere(lib, text, x, t[n..]);
  }

  // ---------- Values ----------

  lemma WordLists(t: string, word: string)
    requires StartsWith(t, word)
    ensures t == word + t[|word|..]
  {
  }

  /** A value without brackets. */
  lemma PlainLists(lib: Numbers, t: string, depth: nat) returns (v: Value)
    requires Local(lib) && t != "" && !IsSpace(t[0]) && t[0] != '{' && t[0] != '['
    requires Skip(lib, t, depth).Some? && Ends(Skip(lib, t, depth).value)
    ensures ValueOk(lib, v) && Depth(v) == 1 && t == ValueThen(v, Skip(lib, t, depth).value)
  {
    hide Local, Ends, Chars, Token, Number, Numeral, Plain;
    assert Ws(t) == t;
    if t[0] == '"' {
      var gap := StringLists(t, SKIPPED_STRING_CAPACITY);
      v := Str(String(t, SKIPPED_STRING_CAPACITY).value.0);
      NoGap(gap, t);
    } else if StartsWith(t, "null") {
      WordLists(t, "null");
      v := Null;
    } else if StartsWith(t, "true") {
      WordLists(t, "true");
      v := True;
    } else if StartsWith(t, "false") {
      WordLists(t, "false");
      v := False;
    } else {
      var gap, text := NumberLists(lib, t);
      v := Num(text);
      NoGap(gap, t);
    }
  }

  lemma NoGap(gap: string, t: string)
    requires Blank(gap) && gap <= t && t != "" && !IsSpace(t[0])
    ensures gap == "" && forall rest: string :: gap + rest == rest
  {
  }

  /** A value that has been passed over is a value. */
  lemma {:induction false} SkipLists(lib: Numbers, s: string, depth: nat) returns (gap: string, v: Value)
    requires Local(lib) && Skip(lib, s, depth).Some? && Ends(Skip(lib, s, depth).value)
    ensures Blank(gap) && s == gap + ValueThen(v, Skip(lib, s, depth).value)
    ensures ValueOk(lib, v) && depth + Depth(v) <= MAX_DEPTH
    decreases |s|, 1
  {
    hide Local, Ends, SkipItems, Token, Number, Numeral, String, Blank, Plain;
    gap := WsLists(s);
    var t := Ws(s);
    SkipWs(lib, s, depth);
    if t[0] == '{' || t[0] == '[' {
      v := BracketLists(lib, t, depth);
    } else {
      v := PlainLists(lib, t, depth);
    }
  }

  lemma {:induction false} BracketLists(lib: Numbers, t: string, depth: nat) returns (v: Value)
    requires Local(lib) && t != "" && (t[0] == '{' || t[0] == '[')
    requires Skip(lib, t, depth).Some?
    ensures t == ValueThen(v, Skip(lib, t, depth).value) && ValueOk(lib, v) && depth + Depth(v) <= MAX_DEPTH
    decreases |t|, 0
  {
    hide Local, Ends, SkipItems, Blank, Ws, Spaced, MembersThen, MembersOk, MembersDepth;
    var inner, close := t[1..], CloserOf(t[0]);
    assert t == [t[0]] + inner;
    var gap := WsLists(inner);
    var u := Ws(inner);
    BracketSkip(lib, t, depth);
    var rest := Skip(lib, t, depth).value;
    var m, end;
    if u != "" && u[0] == close {
      m, end := Nil, gap;
      assert u == [close] + u[1..];
      EmptyThen(lib, close == '}', Spaced(end, close, rest));
      assert inner == Spaced(end, close, rest) by { SpacedIs(end, close, rest); }
    } else {
      m, end := MembersList(lib, gap, u, close, depth + 1);
    }
    v := if t[0] == '{' then Obj(m, end) else Arr(m, end);
    assert inner == MembersThen(m, close == '}', Spaced(end, close, rest));
    BracketThen(lib, t[0], m, end, rest);
  }

  lemma BracketSkip(lib: Numbers, t: string, depth: nat)
    requires t != "" && (t[0] == '{' || t[0] == '[') && Skip(lib, t, depth).Some?
    ensures var u, close := Ws(t[1..]), CloserOf(t[0]);
            && depth < MAX_DEPTH
            && Skip(lib, t, depth) == if u != "" && u[0] == close then Some(u[1..]) else SkipItems(lib, u, close, depth + 1)
  {
    hide SkipItems;
    assert Ws(t) == t;
  }

  lemma SpacedIs(gap: string, c: char, rest: string)
    ensures Spaced(gap, c, rest) == gap + ([c] + rest)
  {
  }

  lemma EmptyThen(lib: Numbers, keyed: bool, rest: string)
    ensures MembersThen(Nil, keyed, rest) == rest && MembersDepth(Nil) == 0 && MembersOk(lib, Nil)
  {
  }

  lemma BracketThen(lib: Numbers, open: char, m: Members, end: string, rest: string)
    requires open == '{' || open == '['
    ensures var v := if open == '{' then Obj(m, end) else Arr(m, end);
            && ValueThen(v, rest) == [open] + MembersThen(m, open == '{', Spaced(end, CloserOf(open), rest))
            && Depth(v) == 1 + MembersDepth(m)
            && (ValueOk(lib, v) <==> MembersOk(lib, m) && Blank(end))
  {
  }

  /** The elements or members that have been passed over, `front` being the white space already taken. */
  lemma {:induction false} MembersList(lib: Numbers, front: string, s: string, close: char, depth: nat) returns (m: Members, end: string)
    requires Local(lib) && Blank(front) && (close == '}' || close == ']') && SkipItems(lib, s, close, depth).Some?
    ensures m != Nil && Blank(end) && MembersOk(lib, m) && depth + MembersDepth(m) <= MAX_DEPTH
    ensures front + s == MembersThen(m, close == '}', Spaced(end, close, SkipItems(lib, s, close, depth).value))
    decreases |s|, 2
  {
    hide Local, Ends, Blank, Skip, Token, Key, Spaced, Plain, ValueThen, ValueOk, Depth, Quoted, MembersThen, MembersOk, MembersDepth;
    var keyed := close == '}';
    var key, gap, colon, body := "", "", "", s;
    if keyed {
      gap, colon := KeyLists(s, SKIPPED_KEY_CAPACITY);
      key, body := Key(s, SKIPPED_KEY_CAPACITY).value.0, Key(s, SKIPPED_KEY_CAPACITY).value.1;
    } else {
      NothingPlain();
    }
    BlankParts(front, gap);
    var t := Skip(lib, body, depth).value;
    var rest := SkipItems(lib, s, close, depth).value;
    TokenEnds(t, if Token(t, close).Some? then close else ',');
    var vgap, v := SkipLists(lib, body, depth);
    BlankParts(front, vgap);
    var more, comma := Nil, "";
    if Token(t, close).Some? {
      end := TokenLists(t, close);
      EmptyThen(lib, keyed, rest);
    } else {
      comma := TokenLists(t, ',');
      more, end := MembersList(lib, "", Token(t, ',').value, close, depth);
      assert "" + Token(t, ',').value == Token(t, ',').value;
    }
    var pad := if keyed then Pad(front + gap, colon, vgap, comma) else Pad("", "", front + vgap, comma);
    m := Cons(pad, key, v, more);
    FirstListed(lib, m, keyed, front, gap, vgap, s, Spaced(end, close, rest));
  }

  lemma NothingPlain()
    ensures Plain("", SKIPPED_KEY_CAPACITY)
  {
  }

  lemma BlankParts(a: string, b: string)
    requires Blank(a) && Blank(b)
    ensures Blank(a + b) && Blank("")
  {
  }

  /** The first element or member in front of the others. */
  lemma FirstListed(lib: Numbers, m: Members, keyed: bool, front: string, gap: string, vgap: string, s: string, rest: string)
    requires m != Nil && PadOk(m.pad) && Plain(m.key, SKIPPED_KEY_CAPACITY) && ValueOk(lib, m.value) && MembersOk(lib, m.rest)
    requires var v := ValueThen(m.value, if m.rest == Nil then rest else Spaced(m.pad.comma, ',', MembersThen(m.rest, keyed, rest)));
             if keyed then m.pad.key == front + gap && s == gap + Quoted(m.key, Spaced(m.pad.colon, ':', m.pad.value + v))
             else m.pad.value == front + vgap && s == vgap + v
    ensures MembersOk(lib, m) && MembersDepth(m) == Max(Depth(m.value), MembersDepth(m.rest))
    ensures front + s == MembersThen(m, keyed, rest)
  {
    hide Plain, PadOk, ValueOk, ValueThen, Spaced, Quoted, Depth;
    var v := ValueThen(m.value, BehindFirst(m, keyed, rest));
    if keyed {
      Regroup(front, gap, Quoted(m.key, Spaced(m.pad.colon, ':', m.pad.value + v)));
    } else {
      Regroup(front, vgap, v);
    }
  }

  lemma Regroup(a: string, b: string, c: string)
    ensures a + (b + c) == a + b + c
  {
  }

  // ---------- Lists ----------

  lemma PadsMore(pads: seq<Pad>, pad: Pad)
    requires PadsOk(pads) && PadOk(pad)
    ensures PadsOk(pads + [pad])
  {
  }

  lemma ValuePad(gap: string, comma: string)
    requires Blank(gap) && Blank(comma)
    ensures PadOk(Pad("", "", gap, comma))
  {
  }

  lemma DistinctMore(names: seq<Feature>, name: Feature)
    requires DistinctNames(names) && name !in names
    ensures DistinctNames(names + [name])
  {
  }

  lemma NameIs(name: string)
    requires FeatureIndex(name, 0).Some?
    ensures FEATURE_NAMES[FeatureIndex(name, 0).value] == name
  {
    hide FeatureIndex;
  }

  /** The features listed behind `order`. */
  lemma {:induction false} NamesList(s: string, order: seq<Feature>, pads: seq<Pad>) returns (all: seq<Pad>, end: string)
    requires FeatureItems(s, order).Some? && |pads| == |order| <= FEATURE_COUNT && DistinctNames(order) && PadsOk(pads)
    ensures var (names, rest) := FeatureItems(s, order).value;
            && order < names && pads < all && |all| == |names| <= FEATURE_COUNT
            && DistinctNames(names) && PadsOk(all) && Blank(end)
            && s == NamesThen(names, all, |order|, Spaced(end, ']', rest))
    decreases |s|
  {
    hide String, Token, Blank, Quoted, Spaced, FeatureIndex, PadOk, DistinctNames, PadsOk, Plain;
    var gap := StringLists(s, KEY_CAPACITY);
    var (name, t) := String(s, KEY_CAPACITY).value;
    NameIs(name);
    var index := FeatureIndex(name, 0).value;
    DistinctMore(order, index);
    if Token(t, ',').Some? {
      var comma := TokenLists(t, ',');
      var pad := Pad("", "", gap, comma);
      ValuePad(gap, comma);
      PadsMore(pads, pad);
      all, end := NamesList(Token(t, ',').value, order + [index], pads + [pad]);
      assert all[|pads|] == (pads + [pad])[|pads|];
    } else {
      end := TokenLists(t, ']');
      BlankParts(gap, end);
      var pad := Pad("", "", gap, "");
      ValuePad(gap, "");
      PadsMore(pads, pad);
      all := pads + [pad];
    }
  }

  /** The weights listed behind `weights`. */
  lemma {:induction false} WeightsList(lib: Numbers, s: string, weights: seq<real>, numerals: seq<string>, pads: seq<Pad>)
    returns (texts: seq<string>, all: seq<Pad>, end: string)
    requires Local(lib) && WeightItems(lib, s, weights).Some?
    requires |pads| == |numerals| == |weights| <= FEATURE_COUNT + 1 && WeightsOk(lib, weights, numerals) && PadsOk(pads)
    ensures var (values, rest) := WeightItems(lib, s, weights).value;
            && weights < values && numerals < texts && pads < all && |all| == |texts| == |values| <= FEATURE_COUNT + 1
            && WeightsOk(lib, values, texts) && PadsOk(all) && Blank(end)
            && s == WeightsThen(texts, all, |weights|, Spaced(end, ']', rest))
    decreases |s|
  {
    hide Number, Token, Blank, Spaced, PadOk, PadsOk, Local, Numeral, WeightsOk;
    var (x, t) := Number(lib, s).value;
    TokenEnds(t, if Token(t, ',').Some? then ',' else ']');
    var gap, text := NumberLists(lib, s);
    WeightsMore(lib, weights, numerals, x, text);
    if Token(t, ',').Some? {
      var comma := TokenLists(t, ',');
      var pad := Pad("", "", gap, comma);
      ValuePad(gap, comma);
      PadsMore(pads, pad);
      texts, all, end := WeightsList(lib, Token(t, ',').value, weights + [x], numerals + [text], pads + [pad]);
      assert all[|pads|] == (pads + [pad])[|pads|] && texts[|pads|] == (numerals + [text])[|pads|];
    } else {
      end := TokenLists(t, ']');
      BlankParts(gap, end);
      var pad := Pad("", "", gap, "");
      ValuePad(gap, "");
      PadsMore(pads, pad);
      texts, all := numerals + [text], pads + [pad];
    }
  }

  lemma WeightsMore(lib: Numbers, weights: seq<real>, numerals: seq<string>, x: real, text: string)
    requires WeightsOk(lib, weights, numerals) && Numeral(lib, text, x)
    ensures WeightsOk(lib, weights + [x], numerals + [text])
  {
    hide Numeral;
  }

  lemma EntriesMore(lib: Numbers, entries: seq<Entry>, numerals: seq<string>, f: Feature, x: real, text: string)
    requires EntriesOk(lib, entries, numerals) && Numeral(lib, text, x)
    requires forall i :: 0 <= i < |entries| ==> entries[i].feature != f
    ensures EntriesOk(lib, entries + [Entry(f, x)], numerals + [text])
  {
    hide Numeral;
  }

  predicate AllSeen(entries: seq<Entry>, seen: set<Feature>)
  {
    forall i :: 0 <= i < |entries| ==> entries[i].feature in seen
  }

  /** The entries of a map behind `entries`. */
  lemma {:induction false} EntriesList(lib: Numbers, s: string, seen: set<Feature>, values: Values, entries: seq<Entry>,
                                       numerals: seq<string>, pads: seq<Pad>)
    returns (found: seq<Entry>, texts: seq<string>, all: seq<Pad>, end: string)
    requires Local(lib) && MapItems(lib, s, seen, values).Some?
    requires |pads| == |numerals| == |entries| && EntriesOk(lib, entries, numerals) && PadsOk(pads) && AllSeen(entries, seen)
    ensures entries < found && numerals < texts && pads < all && |all| == |texts| == |found|
    ensures EntriesOk(lib, found, texts) && PadsOk(all) && Blank(end)
    ensures s == EntriesThen(found, texts, all, |entries|, Spaced(end, '}', MapItems(lib, s, seen, values).value.1))
    decreases |s|
  {
    hide Number, Token, Blank, Spaced, PadOk, PadsOk, Local, Numeral, EntriesOk, Key, FeatureIndex, Quoted, Plain;
    var gap, colon := KeyLists(s, KEY_CAPACITY);
    var (name, t) := Key(s, KEY_CAPACITY).value;
    var (x, u) := Number(lib, t).value;
    NameIs(name);
    var f := FeatureIndex(name, 0).value;
    TokenEnds(u, if Token(u, '}').Some? then '}' else ',');
    var vgap, text := NumberLists(lib, t);
    EntriesMore(lib, entries, numerals, f, x, text);
    if Token(u, '}').Some? {
      end := TokenLists(u, '}');
      BlankParts(vgap, end);
      var pad := Pad(gap, colon, vgap, "");
      MapPad(gap, colon, vgap, "");
      PadsMore(pads, pad);
      found, texts, all := entries + [Entry(f, x)], numerals + [text], pads + [pad];
    } else {
      var comma := TokenLists(u, ',');
      var pad := Pad(gap, colon, vgap, comma);
      MapPad(gap, colon, vgap, comma);
      PadsMore(pads, pad);
      found, texts, all, end := EntriesList(lib, Token(u, ',').value, seen + {f}, values[f := x], entries + [Entry(f, x)],
                                            numerals + [text], pads + [pad]);
      assert all[|pads|] == (pads + [pad])[|pads|] && texts[|pads|] == (numerals + [text])[|pads|];
      assert found[|pads|] == (entries + [Entry(f, x)])[|pads|];
    }
  }

  lemma MapPad(gap: string, colon: string, vgap: string, comma: string)
    requires Blank(gap) && Blank(colon) && Blank(vgap) && Blank(comma)
    ensures PadOk(Pad(gap, colon, vgap, comma))
  {
  }

  // ---------- Fields ----------

  /** What a field's value, read up to `rest`, is the text of. */
  ghost predicate FieldText(lib: Numbers, s: string, key: string, gap: string, item: Item, rest: string)
  {
    Blank(gap) && ItemOk(lib, item) && ItemKey(item) == key && s == gap + ItemThen(item, rest)
  }

  lemma NothingListed(lib: Numbers)
    ensures DistinctNames([]) && PadsOk([]) && WeightsOk(lib, [], []) && EntriesOk(lib, [], []) && AllSeen([], {})
  {
  }

  lemma FeaturesField(lib: Numbers, s: string, d: Draft) returns (gap: string, item: Item)
    requires FieldValue(lib, s, FeatureList, d).Some?
    ensures FieldText(lib, s, "features", gap, item, FieldValue(lib, s, FeatureList, d).value.1)
  {
    hide Token, FeatureItems, NamesThen, Blank, PadsOk, DistinctNames, WeightsOk, EntriesOk;
    gap := TokenLists(s, '[');
    var t := Token(s, '[').value;
    NothingListed(lib);
    var pads, end := NamesList(t, [], []);
    item := Features(FeatureItems(t, []).value.0, pads, end);
  }

  lemma WeightsField(lib: Numbers, s: string, d: Draft) returns (gap: string, item: Item)
    requires Local(lib) && FieldValue(lib, s, WeightList, d).Some?
    ensures FieldText(lib, s, "weights", gap, item, FieldValue(lib, s, WeightList, d).value.1)
  {
    hide Token, WeightItems, WeightsThen, Blank, PadsOk, DistinctNames, WeightsOk, EntriesOk, Local;
    gap := TokenLists(s, '[');
    var t := Token(s, '[').value;
    NothingListed(lib);
    WeightsSizes(lib, [], []);
    var texts, pads, end := WeightsList(lib, t, [], [], []);
    item := Weights(WeightItems(lib, t, []).value.0, texts, pads, end);
  }

  lemma WeightsSizes(lib: Numbers, values: seq<real>, numerals: seq<string>)
    requires WeightsOk(lib, values, numerals)
    ensures |values| == |numerals|
  {
  }

  /** A map and its text. */
  lemma MapList(lib: Numbers, s: string, values: Values)
    returns (gap: string, entries: seq<Entry>, texts: seq<string>, pads: seq<Pad>, end: string)
    requires Local(lib) && Map(lib, s, values).Some?
    ensures |entries| == |texts| == |pads| && EntriesOk(lib, entries, texts) && PadsOk(pads) && Blank(gap) && Blank(end)
    ensures s == gap + ("{" + EntriesThen(entries, texts, pads, 0, Spaced(end, '}', Map(lib, s, values).value.1)))
  {
    hide Token, MapItems, Blank, PadsOk, DistinctNames, WeightsOk, EntriesOk, Local, AllSeen;
    gap := TokenLists(s, '{');
    var t := Token(s, '{').value;
    NothingListed(lib);
    if Token(t, '}').Some? {
      end := TokenLists(t, '}');
      entries, texts, pads := [], [], [];
      assert t == EntriesThen(entries, texts, pads, 0, t);
    } else {
      entries, texts, pads, end := EntriesList(lib, t, {}, values, [], [], []);
    }
    hide EntriesThen, Spaced;
    SpacedIs(gap, '{', t);
  }

  lemma MapField(lib: Numbers, s: string, kind: Kind, d: Draft) returns (gap: string, item: Item)
    requires Local(lib) && (kind == MeanMap || kind == ScaleMap) && FieldValue(lib, s, kind, d).Some?
    ensures FieldText(lib, s, if kind == MeanMap then "means" else "scales", gap, item, FieldValue(lib, s, kind, d).value.1)
  {
    hide Map, EntriesThen, Blank, PadsOk, DistinctNames, WeightsOk, EntriesOk, Local;
    var entries, texts, pads, end;
    gap, entries, texts, pads, end := MapList(lib, s, if kind == MeanMap then d.means else d.scales);
    item := if kind == MeanMap then Means(entries, texts, pads, end) else Scales(entries, texts, pads, end);
  }

  lemma TagField(lib: Numbers, s: string, d: Draft) returns (gap: string, item: Item)
    requires FieldValue(lib, s, KindTag, d).Some?
    ensures FieldText(lib, s, "kind", gap, item, FieldValue(lib, s, KindTag, d).value.1)
  {
    hide String, Blank, Quoted, Plain;
    gap := StringLists(s, KEY_CAPACITY);
    item := Tag;
  }

  lemma OtherField(lib: Numbers, s: string, key: string, d: Draft) returns (gap: string, item: Item)
    requires Local(lib) && KindOf(key) == Unknown && Plain(key, KEY_CAPACITY)
    requires FieldValue(lib, s, Unknown, d).Some? && Ends(FieldValue(lib, s, Unknown, d).value.1)
    ensures FieldText(lib, s, key, gap, item, FieldValue(lib, s, Unknown, d).value.1)
  {
    hide Skip, Local, Ends, ValueThen, ValueOk, Blank, Plain, KindOf, Depth;
    var v;
    gap, v := SkipLists(lib, s, 0);
    item := Other(key, v);
  }

  lemma ValueLists(lib: Numbers, s: string, key: string, d: Draft) returns (gap: string, item: Item)
    requires Local(lib) && Plain(key, KEY_CAPACITY)
    requires FieldValue(lib, s, KindOf(key), d).Some? && Ends(FieldValue(lib, s, KindOf(key), d).value.1)
    ensures FieldText(lib, s, key, gap, item, FieldValue(lib, s, KindOf(key), d).value.1)
  {
    hide FieldValue, FieldText, Local, Ends, Plain;
    match KindOf(key) {
      case FeatureList => gap, item := FeaturesField(lib, s, d);
      case WeightList => gap, item := WeightsField(lib, s, d);
      case MeanMap => gap, item := MapField(lib, s, MeanMap, d);
      case ScaleMap => gap, item := MapField(lib, s, ScaleMap, d);
      case KindTag => gap, item := TagField(lib, s, d);
      case Unknown => gap, item := OtherField(lib, s, key, d);
    }
  }

  /** The fields that have been read, up to the brace behind them. */
  lemma {:induction false} FieldsList(lib: Numbers, s: string, d: Draft) returns (fields: seq<Field>)
    requires Local(lib) && Fields(lib, s, d).Some?
    ensures fields != [] && FieldsOk(lib, fields) && AllLaidOut(fields) && s == FieldsThen(fields, Fields(lib, s, d).value.1)
    decreases |s|
  {
    hide Key, KindOf, FieldValue, Token, Local, Ends, Plain, Blank, ItemThen, ItemOk, ItemKey, FieldsThen, FieldsOk, AllLaidOut, Quoted, Spaced;
    var gap, colon := KeyLists(s, KEY_CAPACITY);
    var (key, t) := Key(s, KEY_CAPACITY).value;
    var kind := KindOf(key);
    var d0 := d.(fields := d.fields + if kind == Unknown then {} else {kind});
    var (d1, u) := FieldValue(lib, t, kind, d0).value;
    TokenEnds(u, if Token(u, '}').Some? then '}' else ',');
    var vgap, item := ValueLists(lib, t, key, d0);
    var comma, more := "", [];
    var rest := Fields(lib, s, d).value.1;
    if Token(u, '}').Some? {
      comma := TokenLists(u, '}');
    } else {
      comma := TokenLists(u, ',');
      more := FieldsList(lib, Token(u, ',').value, d1);
    }
    var field := Field(Pad(gap, colon, vgap, comma), item);
    MapPad(gap, colon, vgap, comma);
    fields := [field] + more;
    FieldsMore(lib, field, more, u, rest);
  }

  /** One field in front of others. */
  lemma FieldsMore(lib: Numbers, field: Field, more: seq<Field>, u: string, rest: string)
    requires PadOk(field.pad) && ItemOk(lib, field.item) && (more != [] ==> FieldsOk(lib, more) && AllLaidOut(more))
    requires u == if more == [] then Spaced(field.pad.comma, '}', rest) else Spaced(field.pad.comma, ',', FieldsThen(more, rest))
    ensures FieldsOk(lib, [field] + more) && AllLaidOut([field] + more)
    ensures FieldsThen([field] + more, rest) ==
            field.pad.key + Quoted(ItemKey(field.item), Spaced(field.pad.colon, ':', field.pad.value + ItemThen(field.item, u)))
  {
    hide PadOk, Spaced, Quoted, ItemThen, ItemKey;
    ItemLaidOut(lib, field.item);
    hide ItemOk, LaidOut;
    var fields := [field] + more;
    assert fields[1..] == more;
    assert forall i :: 1 <= i < |fields| ==> fields[i] == more[i - 1];
  }

  lemma ItemLaidOut(lib: Numbers, item: Item)
    requires ItemOk(lib, item)
    ensures LaidOut(item)
  {
  }

  // ---------- Files ----------

  /** The text of a document of well-formed fields. */
  ghost predicate IsText(lib: Numbers, doc: Document, s: string)
  {
    DocumentOk(lib, doc) && DocumentText(doc) == s
  }

  lemma LoadLists(lib: Numbers, s: string) returns (doc: Document)
    requires Local(lib) && Load(lib, s).Some?
    ensures IsText(lib, doc, s)
  {
    hide Token, Fields, Local, FieldsThen, Blank, FieldsOk, AllLaidOut, TailOk;
    var head := TokenLists(s, '{');
    var t := Token(s, '{').value;
    var fields := FieldsList(lib, t, BlankDraft());
    var tail := Fields(lib, t, BlankDraft()).value.1;
    TailLists(tail);
    doc := Document(head, fields, tail);
  }

  lemma TailLists(tail: string)
    requires Ws(tail) == "" || Ws(tail)[0] == '\0'
    ensures TailOk(tail)
  {
    hide Ws, Blank;
    var gap := WsLists(tail);
    assert tail[..|gap|] == gap;
  }

  /** A text is loaded exactly when it is the text of a complete document, and then for what that document means. */
  lemma LoadsExactly(lib: Numbers, s: string)
    requires Local(lib)
    ensures Load(lib, s).Some? <==> exists doc :: IsText(lib, doc, s) && Complete(doc.fields)
    ensures forall doc :: IsText(lib, doc, s) ==> Load(lib, s) == if Complete(doc.fields) then Some(Meaning(doc.fields)) else None
  {
    hide Load, Local, Complete, Meaning, DocumentOk, DocumentText;
    forall doc | IsText(lib, doc, s)
      ensures Load(lib, s) == if Complete(doc.fields) then Some(Meaning(doc.fields)) else None
    {
      LoadDocument(lib, doc);
    }
    if Load(lib, s).Some? {
      var doc := LoadLists(lib, s);
    }
  }
}
