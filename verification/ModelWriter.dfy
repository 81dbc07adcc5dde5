// The writer of ranking models (tools/model.c:224-233) and its round trip through the reader.
module ModelWriters {
  import opened Bytes
  import opened RankModels
  import opened ModelFiles
  import opened ModelDocuments

  /** What training reports beside the model: the range of the labels, the number of rows as printed, the mean error. */
  datatype Report = Report(labelMin: real, labelMax: real, rows: string, error: real)

  function AllNames(): (r: seq<Feature>)
    ensures |r| == FEATURE_COUNT
  {
    seq(FEATURE_COUNT, i requires 0 <= i < FEATURE_COUNT => i)
  }

  function AllEntries(v: Values): (r: seq<Entry>)
    ensures |r| == FEATURE_COUNT
  {
    seq(FEATURE_COUNT, i requires 0 <= i < FEATURE_COUNT => Entry(i, v[i]))
  }

  // ---------- The layout of the writer ----------

  /** The white space in front of the `k`-th element of a list. */
  function Lead(k: nat): string
  {
    if k > 0 then " " else ""
  }

  function ListPads(n: nat): (r: seq<Pad>)
    ensures |r| == n
  {
    seq(n, k requires 0 <= k < n => Pad("", "", Lead(k), ""))
  }

  function EntryPads(n: nat): (r: seq<Pad>)
    ensures |r| == n
  {
    seq(n, k requires 0 <= k < n => Pad(Lead(k), "", " ", ""))
  }

  function Printed(lib: Numbers, values: seq<real>): (r: seq<string>)
    ensures |r| == |values|
  {
    seq(|values|, k requires 0 <= k < |values| => lib.print17(values[k]))
  }

  function FieldPad(gap: string): Pad
  {
    Pad(gap, "", " ", "")
  }

  /** The document the writer puts down. */
  function Written(lib: Numbers, m: RankModel, r: Report): (doc: Document)
    ensures |doc.fields| == 9
  {
    Document("",
             [Field(FieldPad("\n  "), Tag),
              Field(FieldPad("\n  "), Features(AllNames(), ListPads(FEATURE_COUNT), "")),
              Field(FieldPad("\n  "), Means(AllEntries(m.means), Printed(lib, m.means), EntryPads(FEATURE_COUNT), "")),
              Field(FieldPad("\n  "), Scales(AllEntries(m.scales), Printed(lib, m.scales), EntryPads(FEATURE_COUNT), "")),
              Field(FieldPad("\n  "), Weights(m.weights, Printed(lib, m.weights), ListPads(|m.weights|), "")),
              Field(FieldPad("\n  "), Other("label_min", Num(lib.print17(r.labelMin)))),
              Field(FieldPad(" "), Other("label_max", Num(lib.print17(r.labelMax)))),
              Field(FieldPad("\n  "), Other("train_rows", Num(r.rows))),
              Field(FieldPad(" ").(comma := "\n"), Other("train_mae", Num(lib.print17(r.error))))],
             "\n")
  }

  /** What is printed with 17 digits reads back as the same number. */
  ghost predicate PrintsBack(lib: Numbers, x: real)
  {
    Numeral(lib, lib.print17(x), x)
  }

  /** The axiom about the C library: every number written here reads back. */
  ghost predicate NumbersReadBack(lib: Numbers, m: RankModel, r: Report)
    requires ModelValid(m)
  {
    && (forall i :: 0 <= i < FEATURE_COUNT ==> PrintsBack(lib, m.means[i]) && PrintsBack(lib, m.scales[i]))
    && (forall i :: 0 <= i < FEATURE_COUNT + 1 ==> PrintsBack(lib, m.weights[i]))
    && PrintsBack(lib, r.labelMin) && PrintsBack(lib, r.labelMax) && PrintsBack(lib, r.error)
    && exists x: real :: Numeral(lib, r.rows, x)
  }

  // ---------- The writer ----------

  /** Separator in front of the `k`-th element of a list. */
  function Comma(k: nat): string
  {
    if k > 0 then ", " else ""
  }

  /** A list from its `k`-th element on, the comma in front of it included. */
  function Pending(k: nat, n: nat, text: string): string
  {
    if 0 < k < n then "," + text else text
  }

  lemma CommaSplits(k: nat, n: nat, body: string)
    requires k < n
    ensures Pending(k, n, Lead(k) + body) == Comma(k) + body
  {
    CommaAndBlank(body);
    assert "" + body == body;
  }

  lemma CommaAndBlank(body: string)
    ensures "," + (" " + body) == ", " + body
  {
    assert "," + " " == ", ";
    assert "," + (" " + body) == ("," + " ") + body;
  }

  lemma NothingInFront(c: char, rest: string)
    ensures Spaced("", c, rest) == [c] + rest
  {
  }

  lemma Joined(file: string, a: string, b: string)
    ensures file + (a + b) == file + a + b
  {
  }

  /** What one turn of a list loop puts down. */
  lemma ElementWritten(file: string, k: nat, n: nat, element: string, rest: string, back: string, text: string)
    requires k < n && text == Lead(k) + (element + back) && back == Pending(k + 1, n, rest)
    ensures file + Pending(k, n, text) == file + Comma(k) + element + back
  {
    CommaSplits(k, n, element + back);
    Joined(file, Comma(k), element + back);
    Joined(file + Comma(k), element, back);
  }

  function InQuotes(s: string): string
  {
    "\"" + s + "\""
  }

  lemma QuotedSplits(s: string, rest: string)
    ensures Quoted(s, rest) == InQuotes(s) + rest
  {
    Joined("\"", s, "\"" + rest);
    Joined("\"" + s, "\"", rest);
  }

  lemma NameNext(names: seq<Feature>, k: nat, rest: string)
    requires k < |names|
    ensures var n := |names|;
            NamesThen(names, ListPads(n), k, rest) ==
            Lead(k) + (InQuotes(FEATURE_NAMES[names[k]]) + Pending(k + 1, n, NamesThen(names, ListPads(n), k + 1, rest)))
  {
    hide InQuotes, Lead;
    var n := |names|;
    var next := NamesThen(names, ListPads(n), k + 1, rest);
    NothingInFront(',', next);
    QuotedSplits(FEATURE_NAMES[names[k]], Pending(k + 1, n, next));
    hide Quoted, Spaced;
  }

  /** The names, one by one. */
  method WriteNames(names: seq<Feature>, ghost rest: string, file: string) returns (file': string)
    ensures file' + rest == file + NamesThen(names, ListPads(|names|), 0, rest)
  {
    hide InQuotes, NamesThen, ListPads, Comma, Pending;
    file' := file;
    PendingEnds(0, |names|, NamesThen(names, ListPads(|names|), 0, rest));
    for k := 0 to |names|
      invariant file' + Pending(k, |names|, NamesThen(names, ListPads(|names|), k, rest)) ==
                file + NamesThen(names, ListPads(|names|), 0, rest)
    {
      NameNext(names, k, rest);
      ElementWritten(file', k, |names|, InQuotes(FEATURE_NAMES[names[k]]), NamesThen(names, ListPads(|names|), k + 1, rest),
                     Pending(k + 1, |names|, NamesThen(names, ListPads(|names|), k + 1, rest)),
                     NamesThen(names, ListPads(|names|), k, rest));
      file' := file' + Comma(k) + InQuotes(FEATURE_NAMES[names[k]]);
    }
    PendingEnds(|names|, |names|, NamesThen(names, ListPads(|names|), |names|, rest));
    NamesEnd(names, rest);
  }

  lemma PendingEnds(k: nat, n: nat, text: string)
    requires k == 0 || k == n
    ensures Pending(k, n, text) == text
  {
  }

  lemma NamesEnd(names: seq<Feature>, rest: string)
    ensures NamesThen(names, ListPads(|names|), |names|, rest) == rest
  {
  }

  lemma WeightNext(numerals: seq<string>, k: nat, rest: string)
    requires k < |numerals|
    ensures var n := |numerals|;
            WeightsThen(numerals, ListPads(n), k, rest) ==
            Lead(k) + (numerals[k] + Pending(k + 1, n, WeightsThen(numerals, ListPads(n), k + 1, rest)))
  {
    hide Lead;
    var n := |numerals|;
    NothingInFront(',', WeightsThen(numerals, ListPads(n), k + 1, rest));
    hide Spaced;
  }

  lemma WeightsEnd(numerals: seq<string>, rest: string)
    ensures WeightsThen(numerals, ListPads(|numerals|), |numerals|, rest) == rest
  {
  }

  /** The weights, one by one. */
  method WriteWeights(lib: Numbers, weights: seq<real>, ghost rest: string, file: string) returns (file': string)
    ensures file' + rest == file + WeightsThen(Printed(lib, weights), ListPads(|weights|), 0, rest)
  {
    hide WeightsThen, ListPads, Comma, Pending;
    ghost var printed := Printed(lib, weights);
    ghost var n := |weights|;
    file' := file;
    PendingEnds(0, n, WeightsThen(printed, ListPads(n), 0, rest));
    for k := 0 to |weights|
      invariant file' + Pending(k, n, WeightsThen(printed, ListPads(n), k, rest)) == file + WeightsThen(printed, ListPads(n), 0, rest)
    {
      WeightNext(printed, k, rest);
      ElementWritten(file', k, n, printed[k], WeightsThen(printed, ListPads(n), k + 1, rest),
                     Pending(k + 1, n, WeightsThen(printed, ListPads(n), k + 1, rest)), WeightsThen(printed, ListPads(n), k, rest));
      file' := file' + Comma(k) + lib.print17(weights[k]);
    }
    PendingEnds(n, n, WeightsThen(printed, ListPads(n), n, rest));
    WeightsEnd(printed, rest);
  }

  /** An entry of a map as it is put down. */
  function EntryText(e: Entry, numeral: string): string
  {
    InQuotes(FEATURE_NAMES[e.feature]) + ": " + numeral
  }

  lemma KeySplits(gap: string, key: string, comma: string, rest: string)
    ensures KeyThen(Pad(gap, "", " ", comma), key, rest) == gap + (InQuotes(key) + ": " + rest)
  {
    NothingInFront(':', " " + rest);
    assert [':'] + (" " + rest) == ": " + rest;
    QuotedSplits(key, ": " + rest);
    Joined(InQuotes(key), ": ", rest);
  }

  lemma EntryNext(entries: seq<Entry>, numerals: seq<string>, k: nat, rest: string)
    requires k < |entries| == |numerals|
    ensures var n := |entries|;
            EntriesThen(entries, numerals, EntryPads(n), k, rest) ==
            Lead(k) + (EntryText(entries[k], numerals[k]) + Pending(k + 1, n, EntriesThen(entries, numerals, EntryPads(n), k + 1, rest)))
  {
    hide Lead, InQuotes;
    var n := |entries|;
    var next := EntriesThen(entries, numerals, EntryPads(n), k + 1, rest);
    var back := Pending(k + 1, n, next);
    NothingInFront(',', next);
    KeySplits(Lead(k), FEATURE_NAMES[entries[k].feature], "", numerals[k] + back);
    Joined(InQuotes(FEATURE_NAMES[entries[k].feature]) + ": ", numerals[k], back);
    hide KeyThen, Spaced;
  }

  lemma EntriesEnd(entries: seq<Entry>, numerals: seq<string>, rest: string)
    requires |entries| == |numerals|
    ensures EntriesThen(entries, numerals, EntryPads(|entries|), |entries|, rest) == rest
  {
  }

  /** The entries of a map, one by one. */
  method WriteEntries(lib: Numbers, v: Values, ghost rest: string, file: string) returns (file': string)
    ensures file' + rest == file + EntriesThen(AllEntries(v), Printed(lib, v), EntryPads(FEATURE_COUNT), 0, rest)
  {
    hide EntriesThen, EntryPads, Comma, Pending, InQuotes;
    ghost var entries, printed, n := AllEntries(v), Printed(lib, v), FEATURE_COUNT;
    file' := file;
    PendingEnds(0, n, EntriesThen(entries, printed, EntryPads(n), 0, rest));
    for k := 0 to FEATURE_COUNT
      invariant file' + Pending(k, n, EntriesThen(entries, printed, EntryPads(n), k, rest)) ==
                file + EntriesThen(entries, printed, EntryPads(n), 0, rest)
    {
      EntryNext(entries, printed, k, rest);
      ElementWritten(file', k, n, EntryText(entries[k], printed[k]), EntriesThen(entries, printed, EntryPads(n), k + 1, rest),
                     Pending(k + 1, n, EntriesThen(entries, printed, EntryPads(n), k + 1, rest)),
                     EntriesThen(entries, printed, EntryPads(n), k, rest));
      file' := file' + Comma(k) + (InQuotes(FEATURE_NAMES[k]) + ": " + lib.print17(v[k]));
    }
    PendingEnds(n, n, EntriesThen(entries, printed, EntryPads(n), n, rest));
    EntriesEnd(entries, printed, rest);
  }

  // ---------- The whole file ----------

  /** The four numbers of the report and the end of the object. */
  function ReportText(lib: Numbers, r: Report): string
  {
    "],\n  \"label_min\": " + (lib.print17(r.labelMin) + (", \"label_max\": " + (lib.print17(r.labelMax)
    + (",\n  \"train_rows\": " + (r.rows + (", \"train_mae\": " + (lib.print17(r.error) + "\n}\n")))))))
  }

  /** The file, list by list. */
  function FileText(lib: Numbers, m: RankModel, r: Report): string
  {
    "{\n  \"kind\": \"linear_regression_v1\"" + ",\n  \"features\": [" + FeaturesText(lib, m, r)
  }

  function FeaturesText(lib: Numbers, m: RankModel, r: Report): string
  {
    NamesThen(AllNames(), ListPads(FEATURE_COUNT), 0, "],\n  \"means\": {" + MeansText(lib, m, r))
  }

  function MeansText(lib: Numbers, m: RankModel, r: Report): string
  {
    EntriesThen(AllEntries(m.means), Printed(lib, m.means), EntryPads(FEATURE_COUNT), 0, "},\n  \"scales\": {" + ScalesText(lib, m, r))
  }

  function ScalesText(lib: Numbers, m: RankModel, r: Report): string
  {
    EntriesThen(AllEntries(m.scales), Printed(lib, m.scales), EntryPads(FEATURE_COUNT), 0, "},\n  \"weights\": [" + WeightsText(lib, m, r))
  }

  function WeightsText(lib: Numbers, m: RankModel, r: Report): string
  {
    WeightsThen(Printed(lib, m.weights), ListPads(|m.weights|), 0, ReportText(lib, r))
  }

  /** What stands between the values of two fields, behind which `value` follows. */
  lemma Between(gap: string, key: string, comma: string, value: string, chunk: string)
    requires chunk == "," + gap + InQuotes(key) + ": "
    ensures Spaced("", ',', KeyThen(Pad(gap, "", " ", comma), key, value)) == chunk + value
  {
    hide InQuotes, KeyThen;
    KeySplits(gap, key, comma, value);
    NothingInFront(',', gap + (InQuotes(key) + ": " + value));
    Joined(gap, InQuotes(key), ": ");
    Joined(gap, InQuotes(key) + ": ", value);
    Joined(",", gap + InQuotes(key) + ": ", value);
    Joined(",", gap, InQuotes(key) + ": ");
    Joined("," + gap, InQuotes(key), ": ");
  }

  /** The same behind a closing bracket, in front of an opening one. */
  lemma BetweenLists(close: char, key: string, open: char, inner: string, chunk: string)
    requires chunk == [close] + (",\n  " + InQuotes(key) + ": ") + [open]
    ensures Spaced("", close, Spaced("", ',', KeyThen(FieldPad("\n  "), key, [open] + inner))) == chunk + inner
  {
    hide InQuotes, KeyThen;
    var middle := ",\n  " + InQuotes(key) + ": ";
    assert "," + "\n  " == ",\n  ";
    Between("\n  ", key, "", [open] + inner, middle);
    NothingInFront(close, middle + ([open] + inner));
    Joined(middle, [open], inner);
    Joined([close], middle + [open], inner);
    Joined([close], middle, [open]);
  }

  lemma FieldsNext(fields: seq<Field>, k: nat, rest: string)
    requires k < |fields| && AllLaidOut(fields)
    ensures FieldsThen(fields[k..], rest) ==
            KeyThen(fields[k].pad, ItemKey(fields[k].item),
                    ItemThen(fields[k].item,
                             if k + 1 == |fields| then Spaced(fields[k].pad.comma, '}', rest)
                             else Spaced(fields[k].pad.comma, ',', FieldsThen(fields[k + 1..], rest))))
  {
    hide KeyThen, ItemThen, Spaced, LaidOut;
    assert fields[k..][0] == fields[k] && fields[k..][1..] == fields[k + 1..];
  }

  /** The fields from the `k`-th on. */
  function FieldsFrom(lib: Numbers, m: RankModel, r: Report, k: nat): string
    requires k < 9
  {
    WrittenLaidOut(lib, m, r);
    FieldsThen(Written(lib, m, r).fields[k..], "\n")
  }

  lemma WrittenLaidOut(lib: Numbers, m: RankModel, r: Report)
    ensures AllLaidOut(Written(lib, m, r).fields)
  {
  }

  /** The fields from the `k`-th on, the first of them taken apart. */
  lemma FieldAt(lib: Numbers, m: RankModel, r: Report, k: nat)
    requires k < 9
    ensures LaidOut(Written(lib, m, r).fields[k].item)
    ensures var f := Written(lib, m, r).fields[k];
            FieldsFrom(lib, m, r, k) ==
            KeyThen(f.pad, ItemKey(f.item),
                    ItemThen(f.item, if k == 8 then Spaced(f.pad.comma, '}', "\n") else Spaced(f.pad.comma, ',', FieldsFrom(lib, m, r, k + 1))))
  {
    hide Written, KeyThen, ItemThen, Spaced, FieldsThen, LaidOut;
    WrittenLaidOut(lib, m, r);
    FieldsNext(Written(lib, m, r).fields, k, "\n");
  }

  /** A field that holds a number. */
  lemma NumField(lib: Numbers, m: RankModel, r: Report, k: nat, pad: Pad, key: string, text: string)
    requires k < 9 && Written(lib, m, r).fields[k] == Field(pad, Other(key, Num(text)))
    ensures FieldsFrom(lib, m, r, k) ==
            KeyThen(pad, key, text + if k == 8 then Spaced(pad.comma, '}', "\n") else Spaced(pad.comma, ',', FieldsFrom(lib, m, r, k + 1)))
  {
    hide KeyThen, Spaced, FieldsFrom, Written;
    FieldAt(lib, m, r, k);
  }

  lemma Field8(lib: Numbers, m: RankModel, r: Report)
    ensures Spaced("", ',', FieldsFrom(lib, m, r, 8)) == ", \"train_mae\": " + (lib.print17(r.error) + "\n}\n")
  {
    NumField(lib, m, r, 8, FieldPad(" ").(comma := "\n"), "train_mae", lib.print17(r.error));
    assert Spaced("\n", '}', "\n") == "\n}\n";
    hide KeyThen, Spaced, FieldsFrom, InQuotes, Written;
    Literals();
    Between(" ", "train_mae", "\n", lib.print17(r.error) + "\n}\n", ", \"train_mae\": ");
  }

  lemma Field7(lib: Numbers, m: RankModel, r: Report)
    ensures Spaced("", ',', FieldsFrom(lib, m, r, 7)) ==
            ",\n  \"train_rows\": " + (r.rows + Spaced("", ',', FieldsFrom(lib, m, r, 8)))
  {
    NumField(lib, m, r, 7, FieldPad("\n  "), "train_rows", r.rows);
    hide KeyThen, Spaced, FieldsFrom, InQuotes, Written;
    LineLiterals();
    Between("\n  ", "train_rows", "", r.rows + Spaced("", ',', FieldsFrom(lib, m, r, 8)), ",\n  \"train_rows\": ");
  }

  lemma Field6(lib: Numbers, m: RankModel, r: Report)
    ensures Spaced("", ',', FieldsFrom(lib, m, r, 6)) ==
            ", \"label_max\": " + (lib.print17(r.labelMax) + Spaced("", ',', FieldsFrom(lib, m, r, 7)))
  {
    NumField(lib, m, r, 6, FieldPad(" "), "label_max", lib.print17(r.labelMax));
    hide KeyThen, Spaced, FieldsFrom, InQuotes, Written;
    Literals();
    Between(" ", "label_max", "", lib.print17(r.labelMax) + Spaced("", ',', FieldsFrom(lib, m, r, 7)), ", \"label_max\": ");
  }

  lemma Field5(lib: Numbers, m: RankModel, r: Report)
    ensures Spaced("", ',', FieldsFrom(lib, m, r, 5)) ==
            ",\n  \"label_min\": " + (lib.print17(r.labelMin) + Spaced("", ',', FieldsFrom(lib, m, r, 6)))
  {
    NumField(lib, m, r, 5, FieldPad("\n  "), "label_min", lib.print17(r.labelMin));
    hide KeyThen, Spaced, FieldsFrom, InQuotes, Written;
    LineLiterals();
    Between("\n  ", "label_min", "", lib.print17(r.labelMin) + Spaced("", ',', FieldsFrom(lib, m, r, 6)), ",\n  \"label_min\": ");
  }

  lemma ReportIs(lib: Numbers, m: RankModel, r: Report)
    ensures Spaced("", ']', Spaced("", ',', FieldsFrom(lib, m, r, 5))) == ReportText(lib, r)
  {
    hide FieldsFrom, InQuotes, Written;
    Field8(lib, m, r);
    Field7(lib, m, r);
    Field6(lib, m, r);
    Field5(lib, m, r);
    var inner := lib.print17(r.labelMin) + Spaced("", ',', FieldsFrom(lib, m, r, 6));
    NothingInFront(']', ",\n  \"label_min\": " + inner);
    hide Spaced;
    Joined("]", ",\n  \"label_min\": ", inner);
    assert "]" + ",\n  \"label_min\": " == "],\n  \"label_min\": ";
  }

  /** The five fields in front. */
  lemma ListFields(lib: Numbers, m: RankModel, r: Report)
    ensures var fields, pad := Written(lib, m, r).fields, FieldPad("\n  ");
            && fields[0] == Field(pad, Tag)
            && fields[1] == Field(pad, Features(AllNames(), ListPads(FEATURE_COUNT), ""))
            && fields[2] == Field(pad, Means(AllEntries(m.means), Printed(lib, m.means), EntryPads(FEATURE_COUNT), ""))
            && fields[3] == Field(pad, Scales(AllEntries(m.scales), Printed(lib, m.scales), EntryPads(FEATURE_COUNT), ""))
            && fields[4] == Field(pad, Weights(m.weights, Printed(lib, m.weights), ListPads(|m.weights|), ""))
    ensures Written(lib, m, r).fields[0..] == Written(lib, m, r).fields
  {
    hide AllNames, ListPads, AllEntries, Printed, EntryPads;
  }

  lemma WeightsIs(lib: Numbers, m: RankModel, r: Report)
    ensures Spaced("", '}', Spaced("", ',', FieldsFrom(lib, m, r, 4))) == "},\n  \"weights\": [" + WeightsText(lib, m, r)
  {
    hide KeyThen, Spaced, FieldsFrom, InQuotes, WeightsThen, ListPads, ReportText, Written, Printed;
    ListFields(lib, m, r);
    FieldAt(lib, m, r, 4);
    ReportIs(lib, m, r);
    WeightsLiteral();
    BetweenLists('}', "weights", '[', WeightsText(lib, m, r), "},\n  \"weights\": [");
  }

  lemma ScalesIs(lib: Numbers, m: RankModel, r: Report)
    ensures Spaced("", '}', Spaced("", ',', FieldsFrom(lib, m, r, 3))) == "},\n  \"scales\": {" + ScalesText(lib, m, r)
  {
    hide KeyThen, Spaced, FieldsFrom, InQuotes, EntriesThen, EntryPads, WeightsText, Written, Printed, AllEntries;
    ListFields(lib, m, r);
    FieldAt(lib, m, r, 3);
    WeightsIs(lib, m, r);
    MapLiterals();
    BetweenLists('}', "scales", '{', ScalesText(lib, m, r), "},\n  \"scales\": {");
  }

  lemma MeansIs(lib: Numbers, m: RankModel, r: Report)
    ensures Spaced("", ']', Spaced("", ',', FieldsFrom(lib, m, r, 2))) == "],\n  \"means\": {" + MeansText(lib, m, r)
  {
    hide KeyThen, Spaced, FieldsFrom, InQuotes, EntriesThen, EntryPads, ScalesText, Written, Printed, AllEntries;
    ListFields(lib, m, r);
    FieldAt(lib, m, r, 2);
    ScalesIs(lib, m, r);
    MapLiterals();
    BetweenLists(']', "means", '{', MeansText(lib, m, r), "],\n  \"means\": {");
  }

  lemma FeaturesIs(lib: Numbers, m: RankModel, r: Report)
    ensures Spaced("", ',', FieldsFrom(lib, m, r, 1)) == ",\n  \"features\": [" + FeaturesText(lib, m, r)
  {
    hide KeyThen, Spaced, FieldsFrom, NamesThen, ListPads, MeansText, InQuotes, Written, AllNames;
    ListFields(lib, m, r);
    FieldAt(lib, m, r, 1);
    MeansIs(lib, m, r);
    FeaturesLiteral();
    var inner := FeaturesText(lib, m, r);
    Between("\n  ", "features", "", "[" + inner, ",\n  \"features\": ");
    Joined(",\n  \"features\": ", "[", inner);
  }

  lemma FileIsDocument(lib: Numbers, m: RankModel, r: Report)
    ensures AllLaidOut(Written(lib, m, r).fields) && FileText(lib, m, r) == DocumentText(Written(lib, m, r))
  {
    hide FeaturesText, FieldsThen, KeyThen, Quoted, TAG, Written, LaidOut, FieldsFrom;
    WrittenLaidOut(lib, m, r);
    ListFields(lib, m, r);
    FieldAt(lib, m, r, 0);
    FeaturesIs(lib, m, r);
    KindText(",\n  \"features\": [" + FeaturesText(lib, m, r));
    DocumentIs(lib, m, r);
    Joined("{\n  \"kind\": \"linear_regression_v1\"", ",\n  \"features\": [", FeaturesText(lib, m, r));
  }

  lemma DocumentIs(lib: Numbers, m: RankModel, r: Report)
    ensures AllLaidOut(Written(lib, m, r).fields) && DocumentText(Written(lib, m, r)) == "{" + FieldsFrom(lib, m, r, 0)
  {
    hide FieldsThen, LaidOut;
    WrittenLaidOut(lib, m, r);
    ListFields(lib, m, r);
    NothingInFront('{', FieldsFrom(lib, m, r, 0));
  }

  /** The opening of the file. */
  lemma KindText(inner: string)
    ensures "{" + KeyThen(FieldPad("\n  "), "kind", Quoted(TAG, inner)) == "{\n  \"kind\": \"linear_regression_v1\"" + inner
  {
    var key, tag := InQuotes("kind") + ": ", InQuotes(TAG);
    QuotedSplits(TAG, inner);
    KeySplits("\n  ", "kind", "", tag + inner);
    KindLiteral();
    hide KeyThen, Quoted, InQuotes;
    Joined(key, tag, inner);
    Joined("\n  ", key + tag, inner);
    Joined("{", "\n  " + (key + tag), inner);
  }

  lemma KindLiteral()
    ensures "{" + ("\n  " + (InQuotes("kind") + ": " + InQuotes(TAG))) == "{\n  \"kind\": \"linear_regression_v1\""
  {
    var key, tag := InQuotes("kind") + ": ", InQuotes(TAG);
    assert "{" + ("\n  " + key) == "{\n  \"kind\": ";
    TagLiteral();
    hide InQuotes;
    Joined("\n  ", key, tag);
    Joined("{", "\n  " + key, tag);
    Opening();
  }

  lemma TagLiteral()
    ensures InQuotes(TAG) == "\"linear_regression_v1\""
  {
  }

  lemma Opening()
    ensures "{\n  \"kind\": " + "\"linear_regression_v1\"" == "{\n  \"kind\": \"linear_regression_v1\""
  {
  }

  /** Keys between separators. */
  lemma Literals()
    ensures ", \"train_mae\": " == "," + " " + InQuotes("train_mae") + ": "
    ensures ", \"label_max\": " == "," + " " + InQuotes("label_max") + ": "
  {
  }

  lemma LineLiterals()
    ensures ",\n  \"train_rows\": " == "," + "\n  " + InQuotes("train_rows") + ": "
    ensures ",\n  \"label_min\": " == "," + "\n  " + InQuotes("label_min") + ": "
  {
  }

  lemma FeaturesLiteral()
    ensures ",\n  \"features\": " == "," + "\n  " + InQuotes("features") + ": "
    ensures ",\n  \"features\": " + "[" == ",\n  \"features\": ["
  {
  }

  lemma MapLiterals()
    ensures "],\n  \"means\": {" == "]" + (",\n  " + InQuotes("means") + ": ") + "{"
    ensures "},\n  \"scales\": {" == "}" + (",\n  " + InQuotes("scales") + ": ") + "{"
  {
  }

  lemma WeightsLiteral()
    ensures "},\n  \"weights\": [" == "}" + (",\n  " + InQuotes("weights") + ": ") + "["
  {
  }

  /** The file `train` leaves: the parts in the order they are put down. */
  method WriteModel(lib: Numbers, m: RankModel, r: Report) returns (file: string)
    requires ModelValid(m)
    ensures AllLaidOut(Written(lib, m, r).fields) && file == DocumentText(Written(lib, m, r))
  {
    hide NamesThen, EntriesThen, WeightsThen, AllNames, AllEntries, Printed, ListPads, EntryPads, ReportText, Written, DocumentText;
    FileIsDocument(lib, m, r);
    file := "{\n  \"kind\": \"linear_regression_v1\"" + ",\n  \"features\": [";
    file := WriteNames(AllNames(), "],\n  \"means\": {" + MeansText(lib, m, r), file);
    Joined(file, "],\n  \"means\": {", MeansText(lib, m, r));
    file := file + "],\n  \"means\": {";
    file := WriteEntries(lib, m.means, "},\n  \"scales\": {" + ScalesText(lib, m, r), file);
    Joined(file, "},\n  \"scales\": {", ScalesText(lib, m, r));
    file := file + "},\n  \"scales\": {";
    file := WriteEntries(lib, m.scales, "},\n  \"weights\": [" + WeightsText(lib, m, r), file);
    Joined(file, "},\n  \"weights\": [", WeightsText(lib, m, r));
    file := file + "},\n  \"weights\": [";
    file := WriteWeights(lib, m.weights, ReportText(lib, r), file);
    file := WriteReport(lib, r, file);
  }

  /** The numbers of the report and the end of the file. */
  method WriteReport(lib: Numbers, r: Report, file: string) returns (file': string)
    ensures file' == file + ReportText(lib, r)
  {
    file' := file + ("],\n  \"label_min\": " + (lib.print17(r.labelMin) + (", \"label_max\": " + (lib.print17(r.labelMax)
    + (",\n  \"train_rows\": " + (r.rows + (", \"train_mae\": " + (lib.print17(r.error) + "\n}\n"))))))));
  }

  // ---------- Round trip ----------

  lemma PadsAreBlank(n: nat)
    ensures PadsOk(ListPads(n)) && PadsOk(EntryPads(n))
  {
  }

  lemma MapOk(lib: Numbers, v: Values)
    requires forall i :: 0 <= i < FEATURE_COUNT ==> PrintsBack(lib, v[i])
    ensures EntriesOk(lib, AllEntries(v), Printed(lib, v))
  {
    hide Numeral;
    forall i | 0 <= i < FEATURE_COUNT ensures Numeral(lib, Printed(lib, v)[i], AllEntries(v)[i].value) {
      assert PrintsBack(lib, v[i]);
    }
  }

  lemma WeightsPrinted(lib: Numbers, weights: seq<real>)
    requires forall i :: 0 <= i < |weights| ==> PrintsBack(lib, weights[i])
    ensures WeightsOk(lib, weights, Printed(lib, weights))
  {
    hide Numeral;
    forall i | 0 <= i < |weights| ensures Numeral(lib, Printed(lib, weights)[i], weights[i]) {
      assert PrintsBack(lib, weights[i]);
    }
  }

  lemma NumOk(lib: Numbers, pad: Pad, key: string, text: string, x: real)
    requires Numeral(lib, text, x) && PadOk(pad) && Plain(key, KEY_CAPACITY) && KindOf(key) == Unknown
    ensures FieldOk(lib, Field(pad, Other(key, Num(text))))
  {
    hide Numeral, PadOk, Plain, KindOf;
  }

  lemma FieldPads()
    ensures PadOk(FieldPad("\n  ")) && PadOk(FieldPad(" ")) && PadOk(FieldPad(" ").(comma := "\n"))
  {
  }

  lemma ReportKeys()
    ensures forall key :: key in {"label_min", "label_max", "train_rows", "train_mae"} ==> Plain(key, KEY_CAPACITY) && KindOf(key) == Unknown
  {
  }

  lemma ReportOk(lib: Numbers, m: RankModel, r: Report)
    requires ModelValid(m) && NumbersReadBack(lib, m, r)
    ensures forall k :: 5 <= k < 9 ==> FieldOk(lib, Written(lib, m, r).fields[k])
  {
    FieldPads();
    ReportKeys();
    hide PadOk, Plain, KindOf, Numeral, FieldOk, FieldPad;
    var x: real :| Numeral(lib, r.rows, x);
    NumOk(lib, FieldPad("\n  "), "label_min", lib.print17(r.labelMin), r.labelMin);
    NumOk(lib, FieldPad(" "), "label_max", lib.print17(r.labelMax), r.labelMax);
    NumOk(lib, FieldPad("\n  "), "train_rows", r.rows, x);
    NumOk(lib, FieldPad(" ").(comma := "\n"), "train_mae", lib.print17(r.error), r.error);
  }

  lemma ListsOk(lib: Numbers, m: RankModel, r: Report)
    requires ModelValid(m) && NumbersReadBack(lib, m, r)
    ensures forall k :: 0 <= k < 5 ==> FieldOk(lib, Written(lib, m, r).fields[k])
  {
    ListFields(lib, m, r);
    FieldPads();
    PadsAreBlank(FEATURE_COUNT);
    PadsAreBlank(|m.weights|);
    MapOk(lib, m.means);
    MapOk(lib, m.scales);
    WeightsPrinted(lib, m.weights);
    assert DistinctNames(AllNames());
    hide PadOk, PadsOk, WeightsOk, EntriesOk, DistinctNames, Written, ListPads, EntryPads, Printed, AllEntries, AllNames, FieldPad;
  }

  lemma WrittenOk(lib: Numbers, m: RankModel, r: Report)
    requires ModelValid(m) && NumbersReadBack(lib, m, r)
    ensures DocumentOk(lib, Written(lib, m, r))
  {
    ListsOk(lib, m, r);
    ReportOk(lib, m, r);
    NewlineTail();
    hide FieldOk, TailOk;
  }

  lemma NewlineTail()
    ensures TailOk("\n")
  {
    assert "\n"[..1] == "\n";
  }

  lemma WrittenKinds(lib: Numbers, m: RankModel, r: Report)
    ensures var doc := Written(lib, m, r).fields;
            && KindAt(doc, 0) == KindTag && KindAt(doc, 1) == FeatureList && KindAt(doc, 2) == MeanMap
            && KindAt(doc, 3) == ScaleMap && KindAt(doc, 4) == WeightList
            && KindAt(doc, 5) == KindAt(doc, 6) == KindAt(doc, 7) == KindAt(doc, 8) == Unknown
  {
    hide Printed, ListPads, EntryPads, AllNames, AllEntries;
  }

  lemma WrittenComplete(lib: Numbers, m: RankModel, r: Report)
    requires ModelValid(m)
    ensures var doc := Written(lib, m, r).fields;
            && Complete(doc) && NamesIn(doc) == AllNames() && WeightsIn(doc) == m.weights
            && MeansIn(doc) == AllEntries(m.means) && ScalesIn(doc) == AllEntries(m.scales)
  {
    var doc := Written(lib, m, r).fields;
    WrittenKinds(lib, m, r);
    hide KindOf, ItemKey, ItemOf, Printed, ListPads, EntryPads, AllNames, AllEntries;
    assert NoRepeats(doc);
    assert forall k :: k in KNOWN ==> k in KindsIn(doc) by {
      KindInAt(doc, 0);
      KindInAt(doc, 1);
      KindInAt(doc, 2);
      KindInAt(doc, 3);
      KindInAt(doc, 4);
    }
    KindsKnown(doc);
    ItemOfIs(doc, 1);
    ItemOfIs(doc, 2);
    ItemOfIs(doc, 3);
    ItemOfIs(doc, 4);
  }

  /** Naming every feature once puts every number in its place. */
  lemma AllAssigned(values: Values, v: Values)
    ensures Assigned(values, AllEntries(v), 0) == v
  {
    hide Assigned;
    var entries := AllEntries(v);
    forall f: Feature ensures Assigned(values, entries, 0)[f] == v[f] {
      AssignedAt(values, entries, 0, f);
      assert entries[f].feature == f;
    }
  }

  lemma AllPlaced(weights: seq<real>)
    requires |weights| == FEATURE_COUNT + 1
    ensures Placed(AllNames(), weights, FEATURE_COUNT) == weights
  {
    hide Placed;
    var names := AllNames();
    var placed := Placed(names, weights, FEATURE_COUNT);
    forall j | 0 <= j < FEATURE_COUNT + 1 ensures placed[j] == weights[j] {
      var f: Feature := if j == 0 then 0 else j - 1;
      PlacedAt(names, weights, FEATURE_COUNT, f);
      assert names[f] == f;
    }
  }

  /** A trained model loads back as itself, as long as its file is shorter than 64 KiB; a longer file is refused. */
  lemma TrainedModelLoads(lib: Numbers, m: RankModel, r: Report)
    requires ModelValid(m) && m.enabled && NumbersReadBack(lib, m, r)
    ensures AllLaidOut(Written(lib, m, r).fields)
    ensures var file := DocumentText(Written(lib, m, r));
            LoadFile(lib, file) == if |file| < MAX_FILE then Some(m) else None
  {
    WrittenLaidOut(lib, m, r);
    hide DocumentText, Written, Load, NumbersReadBack, DocumentOk, NamesIn, WeightsIn, MeansIn, ScalesIn, Complete, Assigned, Placed;
    WrittenOk(lib, m, r);
    LoadDocument(lib, Written(lib, m, r));
    WrittenComplete(lib, m, r);
    AllAssigned(ZeroValues(), m.means);
    AllAssigned(OneValues(), m.scales);
    AllPlaced(m.weights);
  }
}
