/** The fiscal-document helper (src/nfe.ts): an NFe or NFSe document that has
    already been parsed into a tree, classified by its root element, with
    getters that project the invoice fields and line items out of it. */
module Nfe {
  import opened Strings
  import opened Js
  import opened Warehouse

  datatype DocType = Invoice | Event | Service | Unknown
  {
    /** The string `getType` returns. */
    function Name(): string
    {
      match this
      case Invoice => "invoice"
      case Event => "event"
      case Service => "service"
      case Unknown => "unknown"
    }

    /** The root element that identifies a known kind of document. */
    function RootKey(): string
      requires this != Unknown
    {
      match this
      case Invoice => "nfeProc"
      case Event => "procEventoNFe"
      case Service => "CompNfse"
    }
  }

  /** Where the signed invoice lives in an NFe tree. */
  const InfNFe: seq<string> := ["nfeProc", "NFe", "infNFe"]
  /** Where the service invoice lives in an NFSe tree. */
  const InfNfse: seq<string> := ["CompNfse", "Nfse", "InfNfse"]

  // ---------------------------------------------------------------------------
  // Amounts
  // ---------------------------------------------------------------------------

  /** `Math.ceil(x * 10000) / 10000` on exact numbers: rounds up to four
      decimal places. */
  function RoundUp4(n: Num): (r: Num)
    ensures n.NaN? <==> r.NaN?
    ensures n.Fin? ==> n.value <= r.value < n.value + 0.0001
    ensures n.Fin? ==> (r.value * 10000.0).Floor as real == r.value * 10000.0
  {
    match n
    case NaN => NaN
    case Fin(x) => Fin(Ceil(x * 10000.0) as real / 10000.0)
  }

  /** No multiple of 0.0001 at or above the input lies below the rounded value:
      rounding goes up to the nearest such multiple, not further. */
  lemma RoundUp4IsLeast(x: real, k: int)
    requires x <= k as real / 10000.0
    ensures RoundUp4(Fin(x)).value <= k as real / 10000.0
  {
    assert x * 10000.0 <= (k as real / 10000.0) * 10000.0 == k as real;
    var c := Ceil(x * 10000.0);
    assert c <= k;
    assert c as real / 10000.0 <= k as real / 10000.0;
  }

  lemma RoundUp4Example()
    ensures RoundUp4(Fin(10.00005)) == Fin(10.0001)
  {
    assert 10.00005 * 10000.0 == 100000.5;
    assert (-100000.5).Floor == -100001;
  }

  // ---------------------------------------------------------------------------
  // Line items
  // ---------------------------------------------------------------------------

  /** The entries `for (const item of foundItems)` visits: the elements of an
      array, the characters of a string (strings are iterable too), and any
      other value wrapped into a one-element list. */
  function DetEntries(det: Json): (entries: seq<Json>)
    ensures det.JArr? ==> entries == det.items
    ensures !det.JArr? && !det.JStr? ==> entries == [det]
  {
    match det
    case JArr(items) => items
    case JStr(s) => seq(|s|, i requires 0 <= i < |s| => JStr([s[i]]))
    case _ => [det]
  }

  /** The record pushed for an entry of `det` that has a line number. */
  function ItemLine(item: Json, nfeId: string): InvoiceRecordLine
  {
    var prod := Member(item, "prod");
    InvoiceRecordLine(
      nfeId,
      Member(item, "_nItem"),
      Or(Member(prod, "cProd"), JStr("nqr")),
      Member(prod, "xProd"),
      Member(prod, "CFOP"),
      Or(Member(prod, "uCom"), JStr("nqr")),
      Or(Member(prod, "qCom"), JNum(0.0)),
      RoundUp4(ToNumber(Member(prod, "vUnCom"))),
      RoundUp4(ToNumber(Member(prod, "vProd"))),
      0.0)
  }

  /** What one entry of `det` contributes: nothing when `_nItem` is missing,
      a TypeError when it has a line number but no `prod` (the unit price reads
      `item.prod.vUnCom` without optional chaining), a line otherwise. */
  function LineOf(item: Json, nfeId: string): Completion<Option<InvoiceRecordLine>>
  {
    if IsNullish(Member(item, "_nItem")) then Normal(None)
    else if IsNullish(Member(item, "prod")) then Throw(TypeError)
    else Normal(Some(ItemLine(item, nfeId)))
  }

  /** The lines a list of entries yields, in order; the first error ends it. */
  function LinesOf(items: seq<Json>, nfeId: string): Completion<seq<InvoiceRecordLine>>
  {
    if items == [] then Normal([])
    else
      match LinesOf(items[..|items| - 1], nfeId)
      case Throw(e) => Throw(e)
      case Normal(done) =>
        match LineOf(items[|items| - 1], nfeId)
        case Throw(e) => Throw(e)
        case Normal(None) => Normal(done)
        case Normal(Some(line)) => Normal(done + [line])
  }

  /** The one line a service document yields, since its format has no items. */
  function ServiceLine(nfeId: string): InvoiceRecordLine
  {
    InvoiceRecordLine(nfeId, JNum(0.0), JStr(""), JStr("yyy"), JStr(""), JStr(""), JNum(0.0),
                      Fin(0.0), Fin(0.0), 0.0)
  }

  // ---------------------------------------------------------------------------
  // Text cleaning
  // ---------------------------------------------------------------------------

  /** `s.replace(/c/g, d)` for a single character `c`. */
  function ReplaceAll(s: string, c: char, d: char): (r: string)
    ensures |r| == |s|
    ensures forall i :: 0 <= i < |s| ==> r[i] == if s[i] == c then d else s[i]
  {
    seq(|s|, i requires 0 <= i < |s| => if s[i] == c then d else s[i])
  }

  /** `s.replace(/\s+/g, ' ')`, scanning left to right; `inRun` says the
      previous character was whitespace already replaced by the space. */
  function CollapseRun(s: string, inRun: bool): string
  {
    if s == [] then []
    else if IsJsWhitespace(s[0]) then
      if inRun then CollapseRun(s[1..], true) else [' '] + CollapseRun(s[1..], true)
    else [s[0]] + CollapseRun(s[1..], false)
  }

  function CollapseWhitespace(s: string): string
  {
    CollapseRun(s, false)
  }

  /** `cleanDescriptiveTextForStorage`: line breaks and tabs to spaces, double
      quotes to single quotes, semicolons to commas, whitespace runs to one
      space. */
  function CleanDescriptiveTextForStorage(text: string): string
  {
    var t := ReplaceAll(ReplaceAll(ReplaceAll(text, '\n', ' '), '\r', ' '), '\t', ' ');
    var t' := ReplaceAll(t, '"', '\'');
    var t'' := ReplaceAll(t', ';', ',');
    CollapseWhitespace(t'')
  }

  /** Text that cleaning leaves alone: no line break, tab, double quote or
      semicolon, no whitespace but the plain space, and never two whitespace
      characters in a row. */
  predicate IsStorageText(s: string)
  {
    && (forall i :: 0 <= i < |s| ==> s[i] != '\n' && s[i] != '\r' && s[i] != '\t' && s[i] != '"' && s[i] != ';')
    && (forall i :: 0 <= i < |s| && IsJsWhitespace(s[i]) ==> s[i] == ' ')
    && (forall i :: 0 <= i < |s| - 1 ==> !(IsJsWhitespace(s[i]) && IsJsWhitespace(s[i + 1])))
  }

  lemma {:induction false} CollapseRunShape(s: string, inRun: bool)
    ensures var r := CollapseRun(s, inRun);
      && |r| <= |s|
      && (forall i :: 0 <= i < |r| ==> r[i] == ' ' || (!IsJsWhitespace(r[i]) && r[i] in s))
      && (forall i :: 0 <= i < |r| - 1 ==> !(IsJsWhitespace(r[i]) && IsJsWhitespace(r[i + 1])))
      && (inRun && r != [] ==> !IsJsWhitespace(r[0]))
  {
    if s != [] {
      var rest := CollapseRun(s[1..], IsJsWhitespace(s[0]));
      CollapseRunShape(s[1..], IsJsWhitespace(s[0]));
      var r := CollapseRun(s, inRun);
      if IsJsWhitespace(s[0]) && inRun {
        assert r == rest;
        forall i | 0 <= i < |r| && r[i] != ' '
          ensures !IsJsWhitespace(r[i]) && r[i] in s
        {
          assert r[i] in s[1..];
        }
      } else {
        var c := if IsJsWhitespace(s[0]) then ' ' else s[0];
        assert r == [c] + rest;
        forall i | 0 <= i < |r| && r[i] != ' '
          ensures !IsJsWhitespace(r[i]) && r[i] in s
        {
          if i > 0 {
            assert r[i] == rest[i - 1];
            assert r[i] in s[1..];
          }
        }
      }
    }
  }

  lemma {:induction false} CollapseRunFixed(s: string, inRun: bool)
    requires forall i :: 0 <= i < |s| && IsJsWhitespace(s[i]) ==> s[i] == ' '
    requires forall i :: 0 <= i < |s| - 1 ==> !(IsJsWhitespace(s[i]) && IsJsWhitespace(s[i + 1]))
    requires inRun && s != [] ==> !IsJsWhitespace(s[0])
    ensures CollapseRun(s, inRun) == s
  {
    if s != [] {
      CollapseRunFixed(s[1..], IsJsWhitespace(s[0]));
      assert s == [s[0]] + s[1..];
    }
  }

  /** Cleaned text is storage text and never longer than the input. */
  lemma CleanedIsStorageText(text: string)
    ensures IsStorageText(CleanDescriptiveTextForStorage(text))
    ensures |CleanDescriptiveTextForStorage(text)| <= |text|
  {
    var t := ReplaceAll(ReplaceAll(ReplaceAll(text, '\n', ' '), '\r', ' '), '\t', ' ');
    var t'' := ReplaceAll(ReplaceAll(t, '"', '\''), ';', ',');
    assert forall i :: 0 <= i < |t''| ==> t''[i] != '"' && t''[i] != ';';
    CollapseRunShape(t'', false);
    var r := CleanDescriptiveTextForStorage(text);
    forall i | 0 <= i < |r|
      ensures r[i] != '"' && r[i] != ';'
    {
      if r[i] != ' ' {
        var j :| 0 <= j < |t''| && t''[j] == r[i];
      }
    }
  }

  /** Storage text is a fixed point of cleaning. */
  lemma CleanKeepsStorageText(s: string)
    requires IsStorageText(s)
    ensures CleanDescriptiveTextForStorage(s) == s
  {
    assert ReplaceAll(s, '\n', ' ') == s;
    assert ReplaceAll(s, '\r', ' ') == s;
    assert ReplaceAll(s, '\t', ' ') == s;
    assert ReplaceAll(s, '"', '\'') == s;
    assert ReplaceAll(s, ';', ',') == s;
    CollapseRunFixed(s, false);
  }

  /** Cleaning twice is cleaning once. */
  lemma CleanIdempotent(text: string)
    ensures CleanDescriptiveTextForStorage(CleanDescriptiveTextForStorage(text))
         == CleanDescriptiveTextForStorage(text)
  {
    CleanedIsStorageText(text);
    CleanKeepsStorageText(CleanDescriptiveTextForStorage(text));
  }

  lemma CleanExample()
    ensures CleanDescriptiveTextForStorage("A\n\"q\";\t x") == "A 'q', x"
  {
    var s := "A\n\"q\";\t x";
    var t1 := ReplaceAll(s, '\n', ' ');
    assert t1 == "A \"q\";\t x";
    var t2 := ReplaceAll(t1, '\r', ' ');
    assert t2 == t1;
    var t3 := ReplaceAll(t2, '\t', ' ');
    assert t3 == "A \"q\";  x";
    var t4 := ReplaceAll(t3, '"', '\'');
    assert t4 == "A 'q';  x";
    var t5 := ReplaceAll(t4, ';', ',');
    assert t5 == "A 'q',  x";
    CollapseExample();
  }

  lemma CollapseExample()
    ensures CollapseWhitespace("A 'q',  x") == "A 'q', x"
  {
    CollapseWord("x", "", true);
    assert "x" + "" == "x";
    CollapseGap("  ", "x");
    assert "  " + "x" == "  x";
    CollapseWord("'q',", "  x", true);
    assert "'q'," + "  x" == "'q',  x";
    assert "'q'," + " x" == "'q', x";
    CollapseGap(" ", "'q',  x");
    assert " " + "'q',  x" == " 'q',  x";
    CollapseWord("A", " 'q',  x", false);
    assert "A" + " 'q',  x" == "A 'q',  x";
    assert "A" + " 'q', x" == "A 'q', x";
  }

  /** A word is copied as it is. */
  lemma {:induction false} CollapseWord(w: string, rest: string, inRun: bool)
    requires forall i :: 0 <= i < |w| ==> !IsJsWhitespace(w[i])
    requires w != []
    ensures CollapseRun(w + rest, inRun) == w + CollapseRun(rest, false)
  {
    assert (w + rest)[1..] == w[1..] + rest;
    if |w| > 1 {
      CollapseWord(w[1..], rest, false);
    }
  }

  /** A gap of whitespace between two words becomes one space. */
  lemma {:induction false} CollapseGap(gap: string, word: string)
    requires forall i :: 0 <= i < |gap| ==> IsJsWhitespace(gap[i])
    requires gap != [] && word != [] && !IsJsWhitespace(word[0])
    ensures CollapseRun(gap + word, false) == " " + CollapseRun(word, false)
  {
    GapInRun(gap[1..], word);
    assert (gap + word)[1..] == gap[1..] + word;
  }

  lemma {:induction false} GapInRun(gap: string, word: string)
    requires forall i :: 0 <= i < |gap| ==> IsJsWhitespace(gap[i])
    requires word != [] && !IsJsWhitespace(word[0])
    ensures CollapseRun(gap + word, true) == CollapseRun(word, false)
  {
    if gap == [] {
      assert gap + word == word;
    } else {
      assert (gap + word)[1..] == gap[1..] + word;
      GapInRun(gap[1..], word);
    }
  }

  // ---------------------------------------------------------------------------
  // Long description
  // ---------------------------------------------------------------------------

  function DescriptionHeader(n: nat): string
  {
    "Description of " + NatToString(n) + " line items:"
  }

  /** `${line.itemDesc}` for every line. */
  function ItemTexts(lines: seq<InvoiceRecordLine>): (texts: seq<string>)
    ensures |texts| == |lines|
  {
    seq(|lines|, i requires 0 <= i < |lines| => ToStr(lines[i].itemDesc))
  }

  function CleanAll(ss: seq<string>): (r: seq<string>)
    ensures |r| == |ss|
    ensures forall i :: 0 <= i < |ss| ==> r[i] == CleanDescriptiveTextForStorage(ss[i])
  {
    seq(|ss|, i requires 0 <= i < |ss| => CleanDescriptiveTextForStorage(ss[i]))
  }

  /** The long description built from a list of lines. */
  function Description(lines: seq<InvoiceRecordLine>): string
  {
    Join(CleanAll([DescriptionHeader(|lines|)] + ItemTexts(lines)), "; ")
  }

  /** Letters, digits and punctuation other than `"` and `;` are never
      whitespace. */
  predicate IsPlainChar(c: char)
  {
    ('a' <= c <= 'z') || ('A' <= c <= 'Z') || ('0' <= c <= '9') || c == ':'
  }

  /** Plain characters separated by single spaces are storage text. */
  lemma PlainIsStorageText(s: string)
    requires forall i :: 0 <= i < |s| ==> IsPlainChar(s[i]) || s[i] == ' '
    requires forall i :: 0 <= i < |s| - 1 ==> IsPlainChar(s[i]) || IsPlainChar(s[i + 1])
    ensures IsStorageText(s)
  {
  }

  lemma HeaderIsStorageText(n: nat)
    ensures IsStorageText(DescriptionHeader(n))
  {
    var digits := NatToString(n);
    var pre, post := "Description of ", " line items:";
    var h := pre + digits + post;
    assert |pre| == 15;
    forall i | 0 <= i < |h|
      ensures IsPlainChar(h[i]) || h[i] == ' '
      ensures i < |h| - 1 ==> IsPlainChar(h[i]) || IsPlainChar(h[i + 1])
    {
      if i < |pre| {
        assert h[i] == pre[i];
      } else if i < |pre| + |digits| {
        assert h[i] == digits[i - |pre|];
      } else {
        assert h[i] == post[i - |pre| - |digits|];
      }
      if i + 1 < |pre| {
        assert h[i + 1] == pre[i + 1];
      } else if i + 1 < |pre| + |digits| {
        assert h[i + 1] == digits[i + 1 - |pre|];
      } else if i + 1 < |h| {
        assert h[i + 1] == post[i + 1 - |pre| - |digits|];
      }
    }
    PlainIsStorageText(h);
  }

  /** The description opens with the number of lines. */
  lemma DescriptionOpensWithCount(lines: seq<InvoiceRecordLine>)
    ensures DescriptionHeader(|lines|) <= Description(lines)
  {
    HeaderIsStorageText(|lines|);
    CleanKeepsStorageText(DescriptionHeader(|lines|));
    var parts := CleanAll([DescriptionHeader(|lines|)] + ItemTexts(lines));
    JoinStartsWithFirst(parts, "; ");
  }

  /** Cleaning removes every semicolon, so the separators are the only ones:
      a description of n lines holds exactly n semicolons. */
  lemma DescriptionSemicolons(lines: seq<InvoiceRecordLine>)
    ensures Count(Description(lines), ';') == |lines|
  {
    var parts := CleanAll([DescriptionHeader(|lines|)] + ItemTexts(lines));
    forall i | 0 <= i < |parts|
      ensures Count(parts[i], ';') == 0
    {
      CleanedIsStorageText(([DescriptionHeader(|lines|)] + ItemTexts(lines))[i]);
      CountAbsent(parts[i], ';');
    }
    assert Count("; ", ';') == 1;
    CountJoin(parts, "; ", ';');
  }

  // ---------------------------------------------------------------------------
  // Properties of line extraction
  // ---------------------------------------------------------------------------

  /** Once an entry has thrown, later entries do not matter. */
  lemma {:induction false} LinesOfThrowIsFinal(items: seq<Json>, k: nat, nfeId: string)
    requires k <= |items|
    requires LinesOf(items[..k], nfeId).Throw?
    ensures LinesOf(items, nfeId) == LinesOf(items[..k], nfeId)
    decreases |items| - k
  {
    if k < |items| {
      assert items[..k + 1][..k] == items[..k];
      LinesOfThrowIsFinal(items, k + 1, nfeId);
    } else {
      assert items[..k] == items;
    }
  }

  /** Each entry is mapped on its own: the lines of a concatenation are the
      lines of each part, concatenated. */
  lemma {:induction false} LinesOfAppend(a: seq<Json>, b: seq<Json>, nfeId: string)
    requires LinesOf(a, nfeId).Normal? && LinesOf(b, nfeId).Normal?
    ensures LinesOf(a + b, nfeId) == Normal(LinesOf(a, nfeId).value + LinesOf(b, nfeId).value)
  {
    if b == [] {
      assert a + b == a;
      assert LinesOf(a, nfeId).value + [] == LinesOf(a, nfeId).value;
    } else {
      var b' := b[..|b| - 1];
      assert (a + b)[..|a + b| - 1] == a + b';
      assert (a + b)[|a + b| - 1] == b[|b| - 1];
      assert LinesOf(b', nfeId).Normal?;
      LinesOfAppend(a, b', nfeId);
      var last := LineOf(b[|b| - 1], nfeId);
      assert last.Normal?;
      var la, lb' := LinesOf(a, nfeId).value, LinesOf(b', nfeId).value;
      assert LinesOf(a + b', nfeId) == Normal(la + lb');
      if last.value.None? {
        assert LinesOf(b, nfeId) == Normal(lb');
        assert LinesOf(a + b, nfeId) == Normal(la + lb');
      } else {
        assert LinesOf(b, nfeId) == Normal(lb' + [last.value.value]);
        assert LinesOf(a + b, nfeId) == Normal(la + lb' + [last.value.value]);
        assert la + lb' + [last.value.value] == la + (lb' + [last.value.value]);
      }
    }
  }

  /** At most one line per entry; every line carries the document id, batch
      sequence 0 and a line number that is present. */
  lemma {:induction false} LinesOfShape(items: seq<Json>, nfeId: string)
    requires LinesOf(items, nfeId).Normal?
    ensures var lines := LinesOf(items, nfeId).value;
      && |lines| <= |items|
      && forall l :: l in lines ==> l.nfeId == nfeId && l.batchSequence == 0.0 && !IsNullish(l.lineNumber)
  {
    if items != [] {
      LinesOfShape(items[..|items| - 1], nfeId);
    }
  }

  /** Entries without a line number yield no line. */
  lemma {:induction false} UnnumberedEntriesYieldNothing(items: seq<Json>, nfeId: string)
    requires forall i :: 0 <= i < |items| ==> IsNullish(Member(items[i], "_nItem"))
    ensures LinesOf(items, nfeId) == Normal([])
  {
    if items != [] {
      UnnumberedEntriesYieldNothing(items[..|items| - 1], nfeId);
    }
  }

  /** A lone `det` object is read exactly as the same object inside an array
      of entries: the single-item wrapping changes nothing per item. */
  lemma SingleEntryLikeListed(item: Json, before: seq<Json>, after: seq<Json>, nfeId: string)
    requires item.JObj?
    requires LinesOf(before + [item] + after, nfeId).Normal?
    ensures LinesOf(before, nfeId).Normal? && LinesOf(after, nfeId).Normal?
    ensures LinesOf(DetEntries(item), nfeId).Normal?
    ensures LinesOf(before + [item] + after, nfeId).value
         == LinesOf(before, nfeId).value + LinesOf(DetEntries(item), nfeId).value + LinesOf(after, nfeId).value
  {
    var all := before + [item] + after;
    assert all[..|before + [item]|] == before + [item];
    assert (before + [item])[..|before|] == before;
    LinesOfThrowPrefix(all, |before + [item]|, nfeId);
    LinesOfThrowPrefix(before + [item], |before|, nfeId);
    assert DetEntries(item) == [item];
    assert [item][..0] == [];
    LinesOfAfterNormal(before, [item], after, nfeId);
    LinesOfAppend(before, [item], nfeId);
    LinesOfAppend(before + [item], after, nfeId);
  }

  /** A list whose lines are computed without error has prefixes that are too. */
  lemma LinesOfThrowPrefix(items: seq<Json>, k: nat, nfeId: string)
    requires k <= |items|
    requires LinesOf(items, nfeId).Normal?
    ensures LinesOf(items[..k], nfeId).Normal?
  {
    if LinesOf(items[..k], nfeId).Throw? {
      LinesOfThrowIsFinal(items, k, nfeId);
    }
  }

  /** The lines of a suffix are computed without error when the whole is. */
  lemma {:induction false} LinesOfAfterNormal(a: seq<Json>, b: seq<Json>, c: seq<Json>, nfeId: string)
    requires LinesOf(a + b + c, nfeId).Normal?
    ensures LinesOf(b, nfeId).Normal? && LinesOf(c, nfeId).Normal?
  {
    LinesOfSuffixNormal(a + b, c, nfeId);
    assert (a + b + c)[..|a + b|] == a + b;
    LinesOfThrowPrefix(a + b + c, |a + b|, nfeId);
    LinesOfSuffixNormal(a, b, nfeId);
  }

  lemma {:induction false} LinesOfSuffixNormal(a: seq<Json>, b: seq<Json>, nfeId: string)
    requires LinesOf(a + b, nfeId).Normal?
    ensures LinesOf(b, nfeId).Normal?
  {
    if b != [] {
      var b' := b[..|b| - 1];
      assert (a + b)[..|a + b| - 1] == a + b';
      assert (a + b)[|a + b| - 1] == b[|b| - 1];
      LinesOfSuffixNormal(a, b', nfeId);
    }
  }

  /** The fall-backs of a line: a falsy item or unit code becomes 'nqr', a
      falsy quantity becomes 0, and the amounts are rounded up to 4 decimals. */
  lemma ItemLineDefaults(item: Json, nfeId: string)
    ensures var prod := Member(item, "prod");
      var line := ItemLine(item, nfeId);
      && (!Truthy(Member(prod, "cProd")) ==> line.itemCode == JStr("nqr"))
      && (!Truthy(Member(prod, "uCom")) ==> line.unitCode == JStr("nqr"))
      && (!Truthy(Member(prod, "qCom")) ==> line.unitQty == JNum(0.0))
      && (Member(prod, "qCom") == JUndef ==> line.unitQty == JNum(0.0))
      && (ToNumber(Member(prod, "vUnCom")).Fin? ==>
            line.unitPrice.Fin? && ToNumber(Member(prod, "vUnCom")).value <= line.unitPrice.value)
  {
  }

  // ---------------------------------------------------------------------------
  // The document
  // ---------------------------------------------------------------------------

  class NfeDocument {
    /** The parsed document; `undefined` when the XML could not be parsed. */
    const nfeJson: Json

    constructor (parsed: Option<Json>)
      ensures nfeJson == if parsed.Some? then parsed.value else JUndef
    {
      nfeJson := if parsed.Some? then parsed.value else JUndef;
    }

    /** `this.nfeJson.<key> !== undefined` on a tree that is there. */
    predicate HasRoot(key: string)
    {
      Member(nfeJson, key) != JUndef
    }

    /** The `try` block of `getType`: three plain member accesses, which
        throw on a tree that is absent; `None` when no root matches and
        control falls through. */
    function TryClassify(): Completion<Option<DocType>>
    {
      match StrictMember(nfeJson, "nfeProc")
      case Throw(e) => Throw(e)
      case Normal(proc) =>
        if proc != JUndef then Normal(Some(Invoice))
        else match StrictMember(nfeJson, "procEventoNFe")
        case Throw(e) => Throw(e)
        case Normal(event) =>
          if event != JUndef then Normal(Some(Event))
          else match StrictMember(nfeJson, "CompNfse")
          case Throw(e) => Throw(e)
          case Normal(service) =>
            if service != JUndef then Normal(Some(Service)) else Normal(None)
    }

    /** `getType` as written: the `try` block, and on an error the handler,
        which logs `Object.keys(this.nfeJson)` before returning 'unknown'.
        On a tree that is absent the access to `nfeJson.nfeProc` throws, and
        so does the handler that was meant to recover from it. */
    function GetTypeAsWritten(): (r: Completion<DocType>)
      ensures r.Throw? <==> IsNullish(nfeJson)
      ensures r.Normal? ==> r.value == GetType()
    {
      var tried := TryClassify();
      if tried.Normal? then
        Normal(if tried.value.Some? then tried.value.value else Unknown)
      else
        var keys := ObjectKeys(nfeJson);
        if keys.Throw? then Throw(keys.error) else Normal(Unknown)
    }

    /** `getType`, with the absent tree classified as unknown: the document's
        own root is present, every root ranked above it is absent, and a
        document with none of the three roots is unknown. */
    function GetType(): (t: DocType)
      ensures t != Unknown ==> !IsNullish(nfeJson) && HasRoot(t.RootKey())
      ensures t == Event || t == Service ==> !HasRoot("nfeProc")
      ensures t == Service ==> !HasRoot("procEventoNFe")
      ensures t == Unknown <==>
                IsNullish(nfeJson) || (!HasRoot("nfeProc") && !HasRoot("procEventoNFe") && !HasRoot("CompNfse"))
    {
      if IsNullish(nfeJson) then Unknown
      else if Member(nfeJson, "nfeProc") != JUndef then Invoice
      else if Member(nfeJson, "procEventoNFe") != JUndef then Event
      else if Member(nfeJson, "CompNfse") != JUndef then Service
      else Unknown
    }

    /** `isNfeValid`: one of the three roots is present (events included). */
    function IsNfeValid(): (valid: bool)
      ensures valid <==> !IsNullish(nfeJson) && (HasRoot("nfeProc") || HasRoot("procEventoNFe") || HasRoot("CompNfse"))
    {
      GetType().Name() in ["invoice", "service", "event"]
    }

    /** `supplier`: the issuer of an invoice or the provider of a service,
        an empty object when absent or for other documents. */
    function Supplier(): (s: Json)
      ensures !IsNullish(s)
      ensures GetType() == Invoice && Truthy(Path(nfeJson, InfNFe + ["emit"])) ==> s == Path(nfeJson, InfNFe + ["emit"])
      ensures GetType() == Service && Truthy(Path(nfeJson, InfNfse + ["PrestadorServico"])) ==>
        s == Path(nfeJson, InfNfse + ["PrestadorServico"])
      ensures GetType() != Invoice && GetType() != Service ==> s == JObj(map[])
      ensures GetType() == Invoice && !Truthy(Path(nfeJson, InfNFe + ["emit"])) ==> s == JObj(map[])
      ensures GetType() == Service && !Truthy(Path(nfeJson, InfNfse + ["PrestadorServico"])) ==> s == JObj(map[])
    {
      match GetType()
      case Invoice => Or(Path(nfeJson, InfNFe + ["emit"]), JObj(map[]))
      case Service => Or(Path(nfeJson, InfNfse + ["PrestadorServico"]), JObj(map[]))
      case _ => JObj(map[])
    }

    /** `getSupplierId`. A service document whose provider lacks
        `IdentificacaoPrestador` makes it throw. */
    function GetSupplierId(): (r: Completion<string>)
      ensures GetType() == Invoice ==>
        r == Normal(if Member(Supplier(), "CNPJ") != JUndef then "CNPJ-" + ToStr(Member(Supplier(), "CNPJ"))
                    else "CPF-" + ToStr(Member(Supplier(), "CPF")))
      ensures GetType() == Service ==>
        (r.Throw? <==> IsNullish(Member(Supplier(), "IdentificacaoPrestador")))
      ensures GetType() == Service && r.Normal? ==>
        r.value == (if Member(Member(Supplier(), "IdentificacaoPrestador"), "Cnpj") != JUndef
                    then "CNPJ-" + ToStr(Member(Member(Supplier(), "IdentificacaoPrestador"), "Cnpj"))
                    else "")
      ensures GetType() == Event || GetType() == Unknown ==> r == Normal("")
    {
      var supplier := Supplier();
      if GetType() == Invoice then
        if Member(supplier, "CNPJ") != JUndef then Normal("CNPJ-" + ToStr(Member(supplier, "CNPJ")))
        else Normal("CPF-" + ToStr(Member(supplier, "CPF")))
      else if GetType() == Service then
        var provider := Member(supplier, "IdentificacaoPrestador");
        if IsNullish(provider) then Throw(TypeError)
        else if Member(provider, "Cnpj") != JUndef then Normal("CNPJ-" + ToStr(Member(provider, "Cnpj")))
        else Normal("")
      else Normal("")
    }

    /** `getSupplierDisplayName`: `xFant || xNome || RazaoSocial`. */
    function GetSupplierDisplayName(): Json
    {
      var supplier := Supplier();
      Or(Or(Member(supplier, "xFant"), Member(supplier, "xNome")), Member(supplier, "RazaoSocial"))
    }

    /** `getInvoiceNumber`: the number as the document holds it, and the
        empty string for other documents. */
    function GetInvoiceNumber(): (n: Json)
      ensures GetType() == Invoice ==> n == Path(nfeJson, InfNFe + ["ide", "nNF"])
      ensures GetType() == Service ==> n == Path(nfeJson, InfNfse + ["Numero"])
      ensures GetType() == Event || GetType() == Unknown ==> n == JStr("")
    {
      match GetType()
      case Invoice => Path(nfeJson, InfNFe + ["ide", "nNF"])
      case Service => Path(nfeJson, InfNfse + ["Numero"])
      case _ => JStr("")
    }

    /** `getInvoiceTotal`: `Number(...)` of the total field, `Number('0')`
        for other documents. */
    function GetInvoiceTotal(): (total: Num)
      ensures GetType() == Invoice ==> total == ToNumber(Path(nfeJson, InfNFe + ["total", "ICMSTot", "vNF"]))
      ensures GetType() == Service ==>
        total == ToNumber(Path(nfeJson, InfNfse + ["Servico", "Valores", "ValorLiquidoNfse"]))
      ensures GetType() == Event || GetType() == Unknown ==> total == ToNumber(JStr("0"))
    {
      var value := match GetType()
        case Invoice => Path(nfeJson, InfNFe + ["total", "ICMSTot", "vNF"])
        case Service => Path(nfeJson, InfNfse + ["Servico", "Valores", "ValorLiquidoNfse"])
        case _ => JStr("0");
      ToNumber(value)
    }

    /** `getDocumentId`: the `Id` attribute of an invoice when it is a string,
        `Nfse` and the number for a service document, empty otherwise. */
    function GetDocumentId(): (id: string)
      ensures GetType() == Invoice ==>
        id == (if Path(nfeJson, InfNFe + ["_Id"]).JStr? then Path(nfeJson, InfNFe + ["_Id"]).s else "")
      ensures GetType() == Service ==> |id| >= 4 && id[..4] == "Nfse"
      ensures GetType() == Service ==> id[4..] == ToStr(Path(nfeJson, InfNfse + ["Numero"]))
      ensures GetType() == Event || GetType() == Unknown ==> id == ""
    {
      match GetType()
      case Invoice =>
        (match Path(nfeJson, InfNFe + ["_Id"])
         case JStr(s) => s
         case _ => "")
      case Service =>
        "Nfse" + ToStr(Path(nfeJson, InfNfse + ["Numero"]))
      case _ => ""
    }

    /** `getFileNameXml`: the document id with `.xml` appended. */
    function GetFileNameXml(): (name: string)
      ensures |name| == |GetDocumentId()| + 4
      ensures name[..|GetDocumentId()|] == GetDocumentId() && name[|GetDocumentId()|..] == ".xml"
    {
      GetDocumentId() + ".xml"
    }

    /** The lines `lineItems` returns, or the error it throws: for an invoice,
        the lines of the `det` entries (throwing the assertion error when `det`
        is a string); for a service document the placeholder line; otherwise
        none. */
    function Lines(): Completion<seq<InvoiceRecordLine>>
    {
      match GetType()
      case Invoice =>
        var det := Path(nfeJson, InfNFe + ["det"]);
        var lines := LinesOf(DetEntries(det), GetDocumentId());
        if lines.Normal? && det.JStr? then Throw(AssertionError) else lines
      case Service => Normal([ServiceLine(GetDocumentId())])
      case _ => Normal([])
    }

    /** `lineItems`. */
    method LineItems() returns (r: Completion<seq<InvoiceRecordLine>>)
      ensures r == Lines()
    {
      var lineItems: seq<InvoiceRecordLine> := [];
      var docType := GetType();
      if docType == Invoice {
        var foundItems := Path(nfeJson, InfNFe + ["det"]);
        var entries := DetEntries(foundItems);
        var i := 0;
        while i < |entries|
          invariant 0 <= i <= |entries|
          invariant LinesOf(entries[..i], GetDocumentId()) == Normal(lineItems)
        {
          var item := entries[i];
          assert entries[..i + 1][..i] == entries[..i];
          if !IsNullish(Member(item, "_nItem")) {
            if IsNullish(Member(item, "prod")) {
              LinesOfThrowIsFinal(entries, i + 1, GetDocumentId());
              return Throw(TypeError);
            }
            lineItems := lineItems + [ItemLine(item, GetDocumentId())];
          }
          i := i + 1;
        }
        assert entries[..i] == entries;
        if foundItems.JStr? {
          return Throw(AssertionError);
        }
        assert Lines() == Normal(lineItems);
      } else if docType == Service {
        lineItems := lineItems + [ServiceLine(GetDocumentId())];
        assert lineItems == [ServiceLine(GetDocumentId())];
      } else {
        assert Lines() == Normal(lineItems);
      }
      return Normal(lineItems);
    }

    /** `getInvoiceDescription`. */
    method GetInvoiceDescription() returns (r: Completion<string>)
      ensures Lines().Throw? ==> r == Throw(Lines().error)
      ensures Lines().Normal? ==> r == Normal(Description(Lines().value))
    {
      var items := LineItems();
      if items.Throw? {
        return Throw(items.error);
      }
      var lineItems := items.value;
      var descriptions: seq<string> := [];
      descriptions := descriptions + ["Description of " + NatToString(|lineItems|) + " line items:"];
      var i := 0;
      while i < |lineItems|
        invariant 0 <= i <= |lineItems|
        invariant descriptions == [DescriptionHeader(|lineItems|)] + ItemTexts(lineItems[..i])
      {
        descriptions := descriptions + [ToStr(lineItems[i].itemDesc)];
        i := i + 1;
      }
      assert lineItems[..i] == lineItems;
      return Normal(Join(CleanAll(descriptions), "; "));
    }
  }


  // ---------------------------------------------------------------------------
  // Properties of a document
  // ---------------------------------------------------------------------------

  /** A tree that could not be parsed: `getType` as written throws a
      TypeError from its own error handler, where the evident intent was to
      classify the document as unknown. */
  lemma GetTypeOnAbsentTree(doc: NfeDocument)
    requires doc.nfeJson == JUndef
    ensures doc.GetTypeAsWritten() == Throw(TypeError)
    ensures doc.GetType() == Unknown
  {
  }

  /** On any tree that is there, the two readings of `getType` agree. */
  lemma GetTypeAgreesOnPresentTree(doc: NfeDocument)
    requires !IsNullish(doc.nfeJson)
    ensures doc.GetTypeAsWritten() == Normal(doc.GetType())
  {
  }

  /** Of the documents that are neither invoices nor service documents,
      only the unrecognised ones are invalid. */
  lemma OtherDocumentsValidity(doc: NfeDocument)
    requires doc.GetType() == Event || doc.GetType() == Unknown
    ensures !doc.IsNfeValid() <==> doc.GetType() == Unknown
  {
  }

  /** Events and unrecognised documents have no supplier: an empty object,
      an empty id and no display name. */
  lemma OtherDocumentsHaveNoSupplier(doc: NfeDocument)
    requires doc.GetType() == Event || doc.GetType() == Unknown
    ensures doc.Supplier() == JObj(map[])
    ensures doc.GetSupplierId() == Normal("")
    ensures doc.GetSupplierDisplayName() == JUndef
  {
  }

  /** Events and unrecognised documents have an empty number and the total
      `Number('0')`, which is zero. */
  lemma OtherDocumentsHaveNoAmount(doc: NfeDocument)
    requires doc.GetType() == Event || doc.GetType() == Unknown
    ensures doc.GetInvoiceNumber() == JStr("")
    ensures doc.GetInvoiceTotal() == Fin(0.0)
  {
    ZeroText();
  }

  /** Events and unrecognised documents have an empty id, the file name
      `.xml` and no line items. */
  lemma OtherDocumentsHaveNoLines(doc: NfeDocument)
    requires doc.GetType() == Event || doc.GetType() == Unknown
    ensures doc.GetDocumentId() == "" && doc.GetFileNameXml() == ".xml"
    ensures doc.Lines() == Normal([])
  {
  }

  /** The id of a service document is `Nfse` followed by its number. */
  lemma ServiceIdNamesNumber(doc: NfeDocument)
    requires doc.GetType() == Service
    ensures doc.GetDocumentId() == "Nfse" + ToStr(doc.GetInvoiceNumber())
  {
  }

  /** `getDocumentId` wraps its call of `getType` in a handler that swallows
      errors, so on a tree that is absent it survives the throw: the id is
      empty and the file name is `.xml`, as with the corrected `getType`. */
  lemma DocumentIdSurvivesAbsentTree(doc: NfeDocument)
    requires IsNullish(doc.nfeJson)
    ensures doc.GetTypeAsWritten().Throw?
    ensures doc.GetDocumentId() == "" && doc.GetFileNameXml() == ".xml"
  {
  }

  /** Every line of a document carries the document's id and batch sequence
      0; an invoice yields at most one line per `det` entry and a service
      document exactly its placeholder line. */
  lemma LinesCarryDocumentId(doc: NfeDocument)
    requires doc.Lines().Normal?
    ensures forall l :: l in doc.Lines().value ==> l.nfeId == doc.GetDocumentId() && l.batchSequence == 0.0
    ensures doc.GetType() == Invoice ==>
      |doc.Lines().value| <= |DetEntries(Path(doc.nfeJson, InfNFe + ["det"]))|
    ensures doc.GetType() == Service ==> doc.Lines().value == [ServiceLine(doc.GetDocumentId())]
  {
    if doc.GetType() == Invoice {
      LinesOfShape(DetEntries(Path(doc.nfeJson, InfNFe + ["det"])), doc.GetDocumentId());
    }
  }

  /** An invoice whose `det` is a string of text is rejected by the
      assertion, whatever the text. */
  lemma TextDetIsRejected(doc: NfeDocument)
    requires doc.GetType() == Invoice
    requires Path(doc.nfeJson, InfNFe + ["det"]).JStr?
    ensures doc.Lines() == Throw(AssertionError)
  {
    var det := Path(doc.nfeJson, InfNFe + ["det"]);
    UnnumberedEntriesYieldNothing(DetEntries(det), doc.GetDocumentId());
  }

  /** A non-empty supplier id names the kind of tax number it carries. */
  lemma SupplierIdShape(doc: NfeDocument)
    requires doc.GetSupplierId().Normal? && doc.GetSupplierId().value != ""
    ensures var id := doc.GetSupplierId().value;
      (|id| >= 5 && id[..5] == "CNPJ-") || (|id| >= 4 && id[..4] == "CPF-")
  {
  }

  /** The display name is the first truthy of the trade name, the legal name
      and the service provider's company name, and the last of them when none
      is truthy. */
  lemma DisplayNameFallbacks(doc: NfeDocument)
    ensures var s := doc.Supplier();
      var name := doc.GetSupplierDisplayName();
      && (Truthy(Member(s, "xFant")) ==> name == Member(s, "xFant"))
      && (!Truthy(Member(s, "xFant")) && Truthy(Member(s, "xNome")) ==> name == Member(s, "xNome"))
      && (!Truthy(Member(s, "xFant")) && !Truthy(Member(s, "xNome")) ==> name == Member(s, "RazaoSocial"))
  {
  }

  /** The total of an invoice whose `vNF` is written in plain digits is the
      number those digits spell. */
  lemma InvoiceTotalOfDigits(doc: NfeDocument, digits: string)
    requires doc.GetType() == Invoice
    requires Path(doc.nfeJson, InfNFe + ["total", "ICMSTot", "vNF"]) == JStr(digits)
    requires digits != [] && AllDigits(digits)
    ensures doc.GetInvoiceTotal() == Fin(DigitsValue(digits) as real)
  {
    StringToNumberDigits(digits);
  }

  /** A document without lines is described by its header alone. */
  lemma EmptyDescription(doc: NfeDocument)
    requires doc.Lines() == Normal([])
    ensures Description(doc.Lines().value) == DescriptionHeader(0)
  {
    HeaderIsStorageText(0);
    CleanKeepsStorageText(DescriptionHeader(0));
    var parts := CleanAll([DescriptionHeader(0)] + ItemTexts([]));
    assert parts == [DescriptionHeader(0)];
  }
}
