/** The `format_product_description` template filter: product description
    text to HTML, in four phases (line classification with list brackets, the
    `<br>` join, the bold and italic rewrites, the collapse of `<br>` runs). */
module ProductFilters {

  import opened Wrappers
  import opened Text
  import opened Seqs

  /** The bullet markers exactly as the filter spells them. The first one is
      the three characters U+00E2 U+20AC U+00A2: the UTF-8 bytes of U+2022
      BULLET read back as Windows-1252. */
  const AsWrittenMarkers: seq<string> := ["\U{E2}\U{20AC}\U{A2}", "-", "*"]

  /** The markers the filter evidently means: the bullet character itself. */
  const IntendedMarkers: seq<string> := ["\U{2022}", "-", "*"]

  predicate StartsWithAny(line: string, markers: seq<string>)
  {
    |markers| > 0 && (StartsWith(line, markers[0]) || StartsWithAny(line, markers[1..]))
  }

  /** A stripped, non-empty line is a bullet when it starts with one of the
      markers and is longer than one character. */
  predicate IsBullet(markers: seq<string>, line: string)
  {
    StartsWithAny(line, markers) && |line| > 1
  }

  /** One entry of `formatted_lines`. */
  datatype Entry =
    | Blank
    | ListOpen
    | ListClose
    | Item(content: string)
    | Plain(line: string)

  function EntryText(e: Entry): string
  {
    match e
    case Blank => ""
    case ListOpen => "<ul>"
    case ListClose => "</ul>"
    case Item(c) => "<li>" + c + "</li>"
    case Plain(l) => l
  }

  function Texts(es: seq<Entry>): seq<string>
  {
    seq(|es|, i requires 0 <= i < |es| => EntryText(es[i]))
  }

  /** How one raw line renders, apart from list brackets: stripped; blank;
      a bullet loses its first character and is stripped again; otherwise
      kept as it is. */
  function Render(markers: seq<string>, raw: string): Entry
  {
    var line := Strip(raw);
    if line == [] then Blank
    else if IsBullet(markers, line) then Item(Strip(line[1..]))
    else Plain(line)
  }

  /** Every line of the description rendered on its own. */
  function Rendered(markers: seq<string>, lines: seq<string>): (rs: seq<Entry>)
    ensures |rs| == |lines|
  {
    seq(|lines|, i requires 0 <= i < |lines| => Render(markers, lines[i]))
  }

  /** Whether the first n rendered lines end inside a list. */
  predicate EndsInList(rs: seq<Entry>, n: int)
    requires 0 <= n <= |rs|
  {
    n > 0 && rs[n - 1].Item?
  }

  /** The bracket that goes before rendered line i: `<ul>` where a run of
      bullet lines begins, `</ul>` where a line that is not a bullet ends one. */
  function Brackets(rs: seq<Entry>, i: int): seq<Entry>
    requires 0 <= i < |rs|
  {
    var now := rs[i].Item?;
    var before := EndsInList(rs, i);
    if now && !before then [ListOpen]
    else if !now && before then [ListClose]
    else []
  }

  function EntriesBefore(rs: seq<Entry>, n: int): seq<Entry>
    requires 0 <= n <= |rs|
  {
    if n == 0 then []
    else EntriesBefore(rs, n - 1) + Brackets(rs, n - 1) + [rs[n - 1]]
  }

  /** Reference for `formatted_lines`: the rendered lines in order, with a
      `<ul>` before and a `</ul>` after each maximal run of items. */
  function Entries(rs: seq<Entry>): seq<Entry>
  {
    EntriesBefore(rs, |rs|) + (if EndsInList(rs, |rs|) then [ListClose] else [])
  }

  lemma TextsAppend(a: seq<Entry>, b: seq<Entry>)
    ensures Texts(a + b) == Texts(a) + Texts(b)
  {
  }

  /** The text of the bracket that goes before a line: `<ul>` where an item
      follows a line outside a list, `</ul>` where a line that is not an item
      follows one inside a list. */
  function BracketText(item: bool, inList: bool): seq<string>
  {
    if item && !inList then ["<ul>"] else if !item && inList then ["</ul>"] else []
  }

  /** One line's step of the first loop, in text form. */
  lemma EntriesStep(rs: seq<Entry>, i: int)
    requires 0 <= i < |rs|
    ensures Texts(EntriesBefore(rs, i + 1)) == Texts(EntriesBefore(rs, i))
      + BracketText(rs[i].Item?, EndsInList(rs, i)) + [EntryText(rs[i])]
  {
    var done := EntriesBefore(rs, i);
    TextsAppend(done + Brackets(rs, i), [rs[i]]);
    TextsAppend(done, Brackets(rs, i));
  }

  /** One pass of the first loop over a raw line: whatever bracket the line
      needs, then the line as rendered; the new state says whether the line
      was an item. */
  method FormatLine(markers: seq<string>, formatted: seq<string>, inList: bool, raw: string)
    returns (out: seq<string>, nowInList: bool)
    ensures nowInList == Render(markers, raw).Item?
    ensures out == formatted + BracketText(nowInList, inList) + [EntryText(Render(markers, raw))]
  {
    out := formatted;
    nowInList := inList;
    var line := Strip(raw);
    if line == [] {
      if nowInList {
        out := out + ["</ul>"];
        nowInList := false;
      }
      out := out + [""];
      return;
    }
    if IsBullet(markers, line) {
      if !nowInList {
        out := out + ["<ul>"];
        nowInList := true;
      }
      var content := Strip(line[1..]);
      out := out + ["<li>" + content + "</li>"];
    } else {
      if nowInList {
        out := out + ["</ul>"];
        nowInList := false;
      }
      out := out + [line];
    }
  }

  /** The first loop of the filter: the `in_list` state machine. */
  method FormatLines(markers: seq<string>, lines: seq<string>) returns (formatted: seq<string>)
    ensures formatted == Texts(Entries(Rendered(markers, lines)))
  {
    ghost var rs := Rendered(markers, lines);
    formatted := [];
    var inList := false;
    for i := 0 to |lines|
      invariant inList == EndsInList(rs, i)
      invariant formatted == Texts(EntriesBefore(rs, i))
    {
      EntriesStep(rs, i);
      assert rs[i] == Render(markers, lines[i]);
      formatted, inList := FormatLine(markers, formatted, inList, lines[i]);
    }
    assert Texts(Entries(rs)) == formatted + (if inList then ["</ul>"] else []) by {
      TextsAppend(EntriesBefore(rs, |rs|), if inList then [ListClose] else []);
    }
    if inList {
      formatted := formatted + ["</ul>"];
    }
  }

  // ---------------------------------------------------------------------
  // List structure of the first phase

  /** Reads entries from a state (inside a list or not) and gives the final
      state, or `None` at the first entry out of place: `<ul>` inside a list,
      `</ul>` or an item outside one, a blank or plain line inside one. */
  function Scan(es: seq<Entry>, open: bool): Option<bool>
  {
    if es == [] then Some(open)
    else if es[0].ListOpen? then (if open then None else Scan(es[1..], true))
    else if es[0].ListClose? then (if open then Scan(es[1..], false) else None)
    else if es[0].Item? then (if open then Scan(es[1..], true) else None)
    else (if open then None else Scan(es[1..], false))
  }

  /** Lists are never nested, every `<ul>` is closed by one `</ul>`, items
      stand only inside lists and other lines only outside them. */
  predicate WellNested(es: seq<Entry>)
  {
    Scan(es, false) == Some(false)
  }

  lemma {:induction false} ScanAppend(a: seq<Entry>, b: seq<Entry>, open: bool)
    ensures Scan(a + b, open) == if Scan(a, open).None? then None else Scan(b, Scan(a, open).value)
  {
    if a != [] {
      assert (a + b)[1..] == a[1..] + b;
      if a[0].ListOpen? {
        if !open { ScanAppend(a[1..], b, true); }
      } else if a[0].ListClose? {
        if open { ScanAppend(a[1..], b, false); }
      } else if a[0].Item? {
        if open { ScanAppend(a[1..], b, true); }
      } else {
        if !open { ScanAppend(a[1..], b, false); }
      }
    } else {
      assert a + b == b;
    }
  }

  lemma {:induction false} ScanEntriesBefore(rs: seq<Entry>, n: int)
    requires 0 <= n <= |rs| && NoBrackets(rs)
    ensures Scan(EntriesBefore(rs, n), false) == Some(EndsInList(rs, n))
  {
    if n > 0 {
      var done := EntriesBefore(rs, n - 1);
      var br := Brackets(rs, n - 1);
      ScanEntriesBefore(rs, n - 1);
      ScanAppend(done + br, [rs[n - 1]], false);
      ScanAppend(done, br, false);
    }
  }

  /** No rendered line is itself a bracket. */
  predicate NoBrackets(rs: seq<Entry>)
  {
    forall i :: 0 <= i < |rs| ==> !rs[i].ListOpen? && !rs[i].ListClose?
  }

  /** Rendering gives no brackets, and a plain line is never empty. */
  lemma RenderedShape(markers: seq<string>, lines: seq<string>)
    ensures NoBrackets(Rendered(markers, lines))
    ensures PlainLinesNonEmpty(Rendered(markers, lines))
  {
  }

  /** The list brackets of the first phase are balanced and never nested. */
  lemma EntriesWellNested(markers: seq<string>, lines: seq<string>)
    ensures WellNested(Entries(Rendered(markers, lines)))
  {
    var rs := Rendered(markers, lines);
    RenderedShape(markers, lines);
    ScanEntriesBefore(rs, |rs|);
    ScanAppend(EntriesBefore(rs, |rs|), if EndsInList(rs, |rs|) then [ListClose] else [], false);
  }

  /** The entries with the list brackets taken out. */
  function Unbracketed(es: seq<Entry>): seq<Entry>
  {
    if es == [] then []
    else
      var last := es[|es| - 1];
      Unbracketed(es[..|es| - 1]) + (if last.ListOpen? || last.ListClose? then [] else [last])
  }

  lemma {:induction false} UnbracketedAppend(a: seq<Entry>, b: seq<Entry>)
    ensures Unbracketed(a + b) == Unbracketed(a) + Unbracketed(b)
    decreases |b|
  {
    if b != [] {
      assert (a + b)[..|a + b| - 1] == a + b[..|b| - 1];
      UnbracketedAppend(a, b[..|b| - 1]);
    } else {
      assert a + b == a;
    }
  }

  lemma UnbracketedStep(done: seq<Entry>, br: seq<Entry>, r: Entry)
    requires Unbracketed(br) == [] && !r.ListOpen? && !r.ListClose?
    ensures Unbracketed(done + br + [r]) == Unbracketed(done) + [r]
  {
    UnbracketedAppend(done + br, [r]);
    assert [r][..0] == [];
    UnbracketedAppend(done, br);
  }

  lemma {:induction false} UnbracketedBefore(rs: seq<Entry>, n: int)
    requires 0 <= n <= |rs| && NoBrackets(rs)
    ensures Unbracketed(EntriesBefore(rs, n)) == rs[..n]
  {
    if n > 0 {
      UnbracketedBefore(rs, n - 1);
      UnbracketedBeforeStep(rs, n);
    }
  }

  lemma UnbracketedBeforeStep(rs: seq<Entry>, n: int)
    requires 0 < n <= |rs| && NoBrackets(rs)
    requires Unbracketed(EntriesBefore(rs, n - 1)) == rs[..n - 1]
    ensures Unbracketed(EntriesBefore(rs, n)) == rs[..n]
  {
    BracketsVanish(rs, n - 1);
    UnbracketedStep(EntriesBefore(rs, n - 1), Brackets(rs, n - 1), rs[n - 1]);
    TakeLast(rs, n);
  }

  lemma BracketsVanish(rs: seq<Entry>, i: int)
    requires 0 <= i < |rs|
    ensures Unbracketed(Brackets(rs, i)) == []
  {
    var br := Brackets(rs, i);
    if br != [] {
      assert br[..0] == [];
    }
  }

  /** Taking the list brackets out of the first phase's output leaves exactly
      one rendered entry per input line, in input order. */
  lemma EntriesRenderEachLine(markers: seq<string>, lines: seq<string>)
    ensures Unbracketed(Entries(Rendered(markers, lines))) == seq(|lines|, i requires 0 <= i < |lines| => Render(markers, lines[i]))
  {
    var rs := Rendered(markers, lines);
    RenderedShape(markers, lines);
    UnbracketedBefore(rs, |rs|);
    UnbracketedAppend(EntriesBefore(rs, |rs|), if EndsInList(rs, |rs|) then [ListClose] else []);
    assert rs[..|rs|] == rs;
  }

  // ---------------------------------------------------------------------
  // Line classification

  /** A lone `-` or `*` is ordinary text, not an empty bullet. */
  lemma LoneMarkerIsPlain(markers: seq<string>, raw: string)
    requires Strip(raw) == "-" || Strip(raw) == "*"
    ensures Render(markers, raw) == Plain(Strip(raw))
  {
  }

  /** A line that opens with bold markup `**` is taken for a bullet: it goes
      into a list and loses its first `*`. */
  lemma {:induction false} BoldLineIsBullet(raw: string)
    requires StartsWith(Strip(raw), "**")
    ensures Render(AsWrittenMarkers, raw) == Item(Strip(Strip(raw)[1..]))
  {
    var line := Strip(raw);
    assert AsWrittenMarkers[1..][1..] == ["*"];
    assert StartsWith(line, "*");
    assert StartsWithAny(line, AsWrittenMarkers[1..][1..]);
    assert StartsWithAny(line, AsWrittenMarkers[1..]);
    assert IsBullet(AsWrittenMarkers, line);
  }

  /** With the markers as written, a line starting with the bullet character
      U+2022 is never a bullet: it stays an ordinary line. */
  lemma AsWrittenBulletMisses(rest: string)
    ensures !Render(AsWrittenMarkers, "\U{2022}" + rest).Item?
  {
    var raw := "\U{2022}" + rest;
    var line := Strip(raw);
    StripFromNonSpace(raw);
    assert line[0] == '\U{2022}';
    assert !StartsWith(line, AsWrittenMarkers[0]) by {
      assert AsWrittenMarkers[0][0] == '\U{E2}';
    }
    assert !StartsWith(line, AsWrittenMarkers[1..][0]);
    assert !StartsWith(line, AsWrittenMarkers[1..][1..][0]);
    assert !StartsWithAny(line, AsWrittenMarkers[1..][1..][1..]);
    assert !StartsWithAny(line, AsWrittenMarkers[1..][1..]);
    assert !StartsWithAny(line, AsWrittenMarkers[1..]);
    assert !StartsWithAny(line, AsWrittenMarkers);
  }

  /** With the markers as written, a line starting with the three-character
      literal is a bullet, and its item keeps the literal's last two
      characters U+20AC U+00A2 in front of the text. */
  lemma AsWrittenMarkerLeavesResidue(rest: string)
    requires rest == [] || !IsSpace(rest[|rest| - 1])
    ensures Render(AsWrittenMarkers, AsWrittenMarkers[0] + rest) == Item(Strip("\U{20AC}\U{A2}" + rest))
  {
    var line := AsWrittenMarkers[0] + rest;
    StripKeeps(line);
    assert line[..3] == AsWrittenMarkers[0];
    assert line[1..] == "\U{20AC}\U{A2}" + rest;
  }

  /** With the intended markers every marker is one character: a stripped
      line made of a marker and some text becomes an item holding exactly
      that text, stripped. */
  lemma IntendedBulletStripsMarker(m: string, rest: string)
    requires m in IntendedMarkers
    requires rest != [] && !IsSpace(rest[|rest| - 1])
    ensures Render(IntendedMarkers, m + rest) == Item(Strip(rest))
  {
    var line := m + rest;
    assert |m| == 1 && !IsSpace(m[0]);
    StripKeeps(line);
    assert line[1..] == rest;
    assert line[..1] == m;
    if m == IntendedMarkers[0] {
      assert StartsWith(line, IntendedMarkers[0]);
    } else if m == IntendedMarkers[1] {
      assert StartsWith(line, IntendedMarkers[1..][0]);
      assert StartsWithAny(line, IntendedMarkers[1..]);
    } else {
      assert StartsWith(line, IntendedMarkers[1..][1..][0]);
      assert StartsWithAny(line, IntendedMarkers[1..][1..]);
      assert StartsWithAny(line, IntendedMarkers[1..]);
    }
  }

  // ---------------------------------------------------------------------
  // The `<br>` join (second loop)

  predicate LooksLikeListTag(line: string)
  {
    StartsWith(line, "<ul>") || StartsWith(line, "</ul>") || StartsWith(line, "<li>")
  }

  /** What entry i of `formatted_lines` contributes to `result_lines`. */
  function JoinPiece(f: seq<string>, i: int): seq<string>
    requires 0 <= i < |f|
  {
    var last := i == |f| - 1;
    if f[i] == "" then (if last then [] else ["<br>"])
    else if LooksLikeListTag(f[i]) then [f[i]]
    else [f[i]] + (if last then [] else ["<br>"])
  }

  function JoinedBefore(f: seq<string>, n: int): seq<string>
    requires 0 <= n <= |f|
  {
    if n == 0 then [] else JoinedBefore(f, n - 1) + JoinPiece(f, n - 1)
  }

  function Joined(f: seq<string>): seq<string>
  {
    JoinedBefore(f, |f|)
  }

  /** The second loop of the filter. */
  method JoinLines(f: seq<string>) returns (result: seq<string>)
    ensures result == Joined(f)
  {
    result := [];
    for i := 0 to |f|
      invariant result == JoinedBefore(f, i)
    {
      var line := f[i];
      if line == "" {
        if i < |f| - 1 {
          result := result + ["<br>"];
        }
      } else if StartsWith(line, "<ul>") || StartsWith(line, "</ul>") || StartsWith(line, "<li>") {
        result := result + [line];
      } else {
        result := result + [line];
        if i < |f| - 1 {
          result := result + ["<br>"];
        }
      }
    }
  }

  /** Whether an entry is followed by `<br>` when it is not the last one: a
      blank entry, and a plain line unless its text itself begins like a
      list tag. Brackets and items never are. */
  predicate BreakAfter(e: Entry)
  {
    e.Blank? || (e.Plain? && !LooksLikeListTag(e.line))
  }

  /** The join stated on entry kinds: a blank entry contributes only its
      `<br>`, every other entry its text, then `<br>` per `BreakAfter`. */
  function JoinByKindBefore(es: seq<Entry>, n: int): seq<string>
    requires 0 <= n <= |es|
  {
    if n == 0 then []
    else
      var e := es[n - 1];
      JoinByKindBefore(es, n - 1)
        + (if e.Blank? then [] else [EntryText(e)])
        + (if BreakAfter(e) && n < |es| then ["<br>"] else [])
  }

  predicate PlainLinesNonEmpty(es: seq<Entry>)
  {
    forall i :: 0 <= i < |es| && es[i].Plain? ==> es[i].line != ""
  }

  /** Which entry texts begin like a list tag: brackets and items always,
      blank entries never, plain lines by their own text. */
  lemma EntryTextTag(e: Entry)
    requires e.Plain? ==> e.line != ""
    ensures EntryText(e) == "" <==> e.Blank?
    ensures !e.Blank? ==> (LooksLikeListTag(EntryText(e)) <==> !BreakAfter(e))
  {
    match e
    case Blank =>
    case ListOpen => assert StartsWith("<ul>", "<ul>");
    case ListClose => assert StartsWith("</ul>", "</ul>");
    case Item(c) => assert ("<li>" + c + "</li>")[..4] == "<li>";
    case Plain(l) =>
  }

  /** The join of the first n texts is the join by kind of the first n entries. */
  predicate JoinAgrees(es: seq<Entry>, n: int)
    requires 0 <= n <= |es|
  {
    JoinedBefore(Texts(es), n) == JoinByKindBefore(es, n)
  }

  lemma {:induction false} JoinByKindBeforeAgrees(es: seq<Entry>, n: int)
    requires 0 <= n <= |es| && PlainLinesNonEmpty(es)
    ensures JoinAgrees(es, n)
  {
    if n > 0 {
      JoinByKindBeforeAgrees(es, n - 1);
      JoinByKindStep(es, n);
    }
  }

  lemma JoinByKindStep(es: seq<Entry>, n: int)
    requires 0 < n <= |es| && PlainLinesNonEmpty(es)
    requires JoinAgrees(es, n - 1)
    ensures JoinAgrees(es, n)
  {
    var e := es[n - 1];
    EntryTextTag(e);
    assert Texts(es)[n - 1] == EntryText(e);
  }

  /** The prefix tests of the join loop classify the first phase's entries
      by their kind: blank entries become `<br>` unless last, brackets and
      items get no `<br>`, plain lines get one unless last (or unless their
      text begins like a list tag). */
  lemma JoinClassifiesEntries(markers: seq<string>, lines: seq<string>)
    ensures Joined(Texts(Entries(Rendered(markers, lines)))) == JoinByKindBefore(Entries(Rendered(markers, lines)), |Entries(Rendered(markers, lines))|)
  {
    var rs := Rendered(markers, lines);
    RenderedShape(markers, lines);
    EntriesPlainNonEmpty(rs);
    JoinByKindBeforeAgrees(Entries(rs), |Entries(rs)|);
  }

  /** The brackets add no plain entry, so plain entries stay non-empty. */
  lemma EntriesPlainNonEmpty(rs: seq<Entry>)
    requires PlainLinesNonEmpty(rs)
    ensures PlainLinesNonEmpty(Entries(rs))
  {
    BeforePlainNonEmpty(rs, |rs|);
  }

  lemma {:induction false} BeforePlainNonEmpty(rs: seq<Entry>, n: int)
    requires 0 <= n <= |rs| && PlainLinesNonEmpty(rs)
    ensures PlainLinesNonEmpty(EntriesBefore(rs, n))
  {
    if n > 0 {
      BeforePlainNonEmpty(rs, n - 1);
      var es := EntriesBefore(rs, n - 1) + Brackets(rs, n - 1) + [rs[n - 1]];
      assert EntriesBefore(rs, n) == es;
      forall i | 0 <= i < |es| && es[i].Plain? ensures es[i].line != "" {
        if i < |EntriesBefore(rs, n - 1)| {
          assert es[i] == EntriesBefore(rs, n - 1)[i];
        } else if i < |es| - 1 {
          assert es[i] in Brackets(rs, n - 1);
        } else {
          assert es[i] == rs[n - 1];
        }
      }
    }
  }

  // ---------------------------------------------------------------------
  // Bold: re.sub(r'\*\*(.*?)\*\*', r'<strong>\1</strong>', html)

  /** The lazy search for the closing `**` from index i: the first index
      where `**` stands, unless a newline comes first (`.` does not match a
      newline). */
  function CloseBold(s: string, i: nat): (r: Option<nat>)
    ensures r.Some? ==> i <= r.value && r.value + 2 <= |s| && s[r.value] == '*' && s[r.value + 1] == '*'
    ensures r.Some? ==> forall k :: i <= k < r.value ==> s[k] != '\n' && !(s[k] == '*' && s[k + 1] == '*')
    ensures r.None? ==> forall q :: i <= q && q + 1 < |s| && s[q] == '*' && s[q + 1] == '*' ==> '\n' in s[i..q]
    decreases |s| - i
  {
    if i + 2 > |s| then None
    else if s[i] == '*' && s[i + 1] == '*' then Some(i)
    else if s[i] == '\n' then None
    else CloseBold(s, i + 1)
  }

  function Bold(s: string): string
    decreases |s|
  {
    if s == [] then []
    else if StartsWith(s, "**") && CloseBold(s, 2).Some? then
      var q := CloseBold(s, 2).value;
      "<strong>" + s[2..q] + "</strong>" + Bold(s[q + 2..])
    else [s[0]] + Bold(s[1..])
  }

  predicate StarFree(s: string)
  {
    forall k :: 0 <= k < |s| ==> s[k] != '*'
  }

  /** Text without asterisks goes through the bold pass unchanged. */
  lemma {:induction false} BoldKeepsStarFree(s: string)
    requires StarFree(s)
    ensures Bold(s) == s
    decreases |s|
  {
    if s != [] {
      BoldKeepsStarFree(s[1..]);
    }
  }

  /** `**x**` with no asterisk and no newline in x becomes `<strong>x</strong>`. */
  lemma BoldPair(x: string)
    requires StarFree(x) && '\n' !in x
    ensures Bold("**" + x + "**") == "<strong>" + x + "</strong>"
  {
    var s := "**" + x + "**";
    var q := |x| + 2;
    assert s[q] == '*' && s[q + 1] == '*';
    assert forall k :: 2 <= k < q ==> s[k] == x[k - 2];
    assert CloseBold(s, 2) == Some(q);
    assert s[2..q] == x;
    assert s[q + 2..] == [];
  }

  // ---------------------------------------------------------------------
  // Italic: re.sub(r'(?<!\*)\*([^*]+)\*(?!\*)', r'<em>\1</em>', html)

  /** End of the run of characters other than `*` that starts at i. */
  function StarFreeEnd(s: string, i: nat): (e: nat)
    requires i <= |s|
    ensures i <= e <= |s| && (e == |s| || s[e] == '*')
    ensures forall k :: i <= k < e ==> s[k] != '*'
    decreases |s| - i
  {
    if i == |s| || s[i] == '*' then i else StarFreeEnd(s, i + 1)
  }

  /** The italic rewrite, scanning from index p; the look-behind reads the
      original text, not the rewritten one. */
  function ItalicFrom(s: string, p: nat): string
    requires p <= |s|
    decreases |s| - p
  {
    if p == |s| then []
    else if s[p] == '*' && (p == 0 || s[p - 1] != '*') then
      var e := StarFreeEnd(s, p + 1);
      if e > p + 1 && e < |s| && (e + 1 == |s| || s[e + 1] != '*') then
        "<em>" + s[p + 1..e] + "</em>" + ItalicFrom(s, e + 1)
      else [s[p]] + ItalicFrom(s, p + 1)
    else [s[p]] + ItalicFrom(s, p + 1)
  }

  function Italic(s: string): string
  {
    ItalicFrom(s, 0)
  }

  lemma {:induction false} ItalicFromKeepsStarFree(s: string, p: nat)
    requires p <= |s| && StarFree(s)
    ensures ItalicFrom(s, p) == s[p..]
    decreases |s| - p
  {
    if p < |s| {
      ItalicFromKeepsStarFree(s, p + 1);
    }
  }

  /** Text without asterisks goes through the italic pass unchanged. */
  lemma ItalicKeepsStarFree(s: string)
    requires StarFree(s)
    ensures Italic(s) == s
  {
    ItalicFromKeepsStarFree(s, 0);
  }

  lemma {:induction false} StarFreeEndAt(s: string, i: nat, e: nat)
    requires i <= e < |s| && s[e] == '*'
    requires forall k :: i <= k < e ==> s[k] != '*'
    ensures StarFreeEnd(s, i) == e
    decreases e - i
  {
    if i < e {
      StarFreeEndAt(s, i + 1, e);
    }
  }

  /** `*x*` with no asterisk in a non-empty x becomes `<em>x</em>`. */
  lemma ItalicPair(x: string)
    requires StarFree(x) && x != []
    ensures Italic("*" + x + "*") == "<em>" + x + "</em>"
  {
    var s := "*" + x + "*";
    var e := |x| + 1;
    assert forall k :: 1 <= k < e ==> s[k] == x[k - 1];
    StarFreeEndAt(s, 1, e);
    assert s[1..e] == x;
    assert ItalicFrom(s, e + 1) == [];
    assert ItalicFrom(s, 0) == "<em>" + x + "</em>" + ItalicFrom(s, e + 1);
  }

  // ---------------------------------------------------------------------
  // Collapse: re.sub(r'(<br>\s*){3,}', '<br><br>', html)

  /** Length of the whitespace at the start of s (`\s*`, greedy). */
  function SpaceRun(s: string): (n: nat)
    ensures n <= |s|
  {
    if s != [] && IsSpace(s[0]) then 1 + SpaceRun(s[1..]) else 0
  }

  /** `\s*` takes every leading whitespace character and stops at the first
      other one. */
  lemma {:induction false} SpaceRunSpec(s: string)
    ensures forall k :: 0 <= k < SpaceRun(s) ==> IsSpace(s[k])
    ensures SpaceRun(s) == |s| || !IsSpace(s[SpaceRun(s)])
  {
    if s != [] && IsSpace(s[0]) {
      SpaceRunSpec(s[1..]);
      forall k | 0 <= k < SpaceRun(s) ensures IsSpace(s[k]) {
        if k > 0 { assert s[k] == s[1..][k - 1]; }
      }
      if SpaceRun(s) < |s| {
        assert s[SpaceRun(s)] == s[1..][SpaceRun(s[1..])];
      }
    }
  }

  /** Whitespace followed by something else: `\s*` takes exactly the
      whitespace. */
  lemma {:induction false} SpaceRunExact(a: string, b: string)
    requires forall k :: 0 <= k < |a| ==> IsSpace(a[k])
    requires b == [] || !IsSpace(b[0])
    ensures SpaceRun(a + b) == |a|
    decreases |a|
  {
    if a == [] {
      assert a + b == b;
    } else {
      assert (a + b)[0] == a[0];
      assert (a + b)[1..] == a[1..] + b;
      SpaceRunExact(a[1..], b);
    }
  }

  /** The text starts with the tag `<br>`. */
  predicate OpensBreak(s: string)
  {
    |s| >= 4 && s[0] == '<' && s[1] == 'b' && s[2] == 'r' && s[3] == '>'
  }

  lemma OpensBreakIsStartsWith(s: string)
    ensures OpensBreak(s) <==> StartsWith(s, "<br>")
  {
    if |s| >= 4 {
      assert OpensBreak(s) ==> s[..4] == "<br>";
      assert s[..4] == "<br>" ==> s[0] == s[..4][0] && s[3] == s[..4][3];
    }
  }

  /** Where the unit `<br>\s*` at the start of s ends. */
  function UnitEnd(s: string): (n: nat)
    requires OpensBreak(s)
    ensures 4 <= n <= |s|
  {
    4 + SpaceRun(s[4..])
  }

  /** How many `<br>\s*` units stand one after another at the start of s. */
  function Units(s: string): (n: nat)
    ensures n > 0 <==> OpensBreak(s)
    decreases |s|
  {
    if OpensBreak(s) then 1 + Units(s[UnitEnd(s)..]) else 0
  }

  /** The length of those units together. */
  function RunLen(s: string): (n: nat)
    ensures n <= |s|
    ensures n > 0 <==> OpensBreak(s)
    decreases |s|
  {
    if OpensBreak(s) then UnitEnd(s) + RunLen(s[UnitEnd(s)..]) else 0
  }

  /** The regular expression scans left to right: where a run of three or
      more units starts, the whole greedy run becomes `<br><br>`; anywhere
      else one character is copied. */
  function CollapseBreaks(s: string): string
    decreases |s|
  {
    if s == [] then []
    else if Units(s) >= 3 then "<br><br>" + CollapseBreaks(s[RunLen(s)..])
    else [s[0]] + CollapseBreaks(s[1..])
  }

  /** A run of three or more units starts at position p of t. */
  predicate BreakRunAt(t: string, p: int)
    requires 0 <= p <= |t|
  {
    Units(t[p..]) >= 3
  }

  /** No three `<br>` (each followed by optional whitespace) in a row. */
  predicate NoBreakRun(t: string)
  {
    forall p :: 0 <= p < |t| ==> !BreakRunAt(t, p)
  }

  /** Inside a run, later positions start fewer units. */
  lemma {:induction false} RunUnitsBelow(s: string, j: int)
    requires 0 < j < RunLen(s)
    ensures Units(s[j..]) < Units(s)
    decreases |s|
  {
    var a := UnitEnd(s);
    if j < a {
      if j < 4 {
        assert s[j..][0] == s[j] == "<br>"[j];
      } else {
        assert s[j] == s[4..][j - 4];
        SpaceRunSpec(s[4..]);
      }
      assert !OpensBreak(s[j..]);
    } else if j > a {
      RunUnitsBelow(s[a..], j - a);
      assert s[a..][j - a..] == s[j..];
    }
  }

  /** Where no run starts, the collapse copies one character. */
  lemma CopyOne(s: string)
    requires s != [] && !BreakRunAt(s, 0)
    ensures CollapseBreaks(s) == [s[0]] + CollapseBreaks(s[1..])
  {
    assert s[0..] == s;
  }

  lemma NoRunAfterFirst(s: string, j: int)
    requires 0 < j <= |s|
    requires forall i :: 0 <= i < j ==> !BreakRunAt(s, i)
    ensures forall i :: 0 <= i < j - 1 ==> !BreakRunAt(s[1..], i)
  {
    forall i | 0 <= i < j - 1 ensures !BreakRunAt(s[1..], i) {
      assert !BreakRunAt(s, i + 1);
      assert s[1..][i..] == s[i + 1..];
    }
  }

  lemma PrefixStep(s: string, j: int, tail: string)
    requires 0 < j <= |s|
    ensures s[1..][j - 1..] == s[j..]
    ensures [s[0]] + (s[1..][..j - 1] + tail) == s[..j] + tail
  {
    assert s[..j] == [s[0]] + s[1..][..j - 1];
  }

  /** Positions where no run of three units starts are copied one by one. */
  lemma {:induction false} CopyPrefix(s: string, j: int)
    requires 0 <= j <= |s|
    requires forall i :: 0 <= i < j ==> !BreakRunAt(s, i)
    ensures CollapseBreaks(s) == s[..j] + CollapseBreaks(s[j..])
  {
    if j > 0 {
      CopyOne(s);
      NoRunAfterFirst(s, j);
      CopyPrefix(s[1..], j - 1);
      PrefixStep(s, j, CollapseBreaks(s[j..]));
    } else {
      assert s[..0] == [] && s[0..] == s;
    }
  }

  /** A run shorter than three units is copied as it is. */
  lemma CopyShortRun(s: string)
    requires Units(s) < 3
    ensures CollapseBreaks(s) == s[..RunLen(s)] + CollapseBreaks(s[RunLen(s)..])
  {
    forall i | 0 <= i < RunLen(s) ensures !BreakRunAt(s, i) {
      if i > 0 { RunUnitsBelow(s, i); } else { assert s[0..] == s; }
    }
    CopyPrefix(s, RunLen(s));
  }

  /** After a run comes neither another `<br>` nor whitespace. */
  lemma {:induction false} RunEnd(s: string)
    ensures !OpensBreak(s[RunLen(s)..])
    ensures RunLen(s) > 0 ==> RunLen(s) == |s| || !IsSpace(s[RunLen(s)])
    decreases |s|
  {
    if OpensBreak(s) {
      var a := UnitEnd(s);
      RunEnd(s[a..]);
      assert s[a..][RunLen(s[a..])..] == s[RunLen(s)..];
      if RunLen(s[a..]) == 0 {
        SpaceRunSpec(s[4..]);
        assert a == |s| || s[a] == s[4..][a - 4];
      } else {
        assert RunLen(s[a..]) == |s[a..]| || s[RunLen(s)] == s[a..][RunLen(s[a..])];
      }
    } else {
      assert s[0..] == s;
    }
  }

  /** One unit `<br>` plus whitespace, then text that does not start with
      whitespace: the unit ends exactly where the text begins. */
  lemma UnitThen(p: string, y: string)
    requires OpensBreak(p)
    requires forall k :: 4 <= k < |p| ==> IsSpace(p[k])
    requires y == [] || !IsSpace(y[0])
    ensures OpensBreak(p + y)
    ensures UnitEnd(p + y) == |p| && (p + y)[|p|..] == y
  {
    SliceConcat(p, y, 4);
    SliceConcat(p, y, |p|);
    assert p[|p|..] + y == y;
    SpaceRunExact(p[4..], y);
  }

  /** The first unit of a run reaches exactly as far as its whitespace. */
  lemma FirstUnitSpaces(s: string)
    requires OpensBreak(s)
    ensures OpensBreak(s[..UnitEnd(s)])
    ensures forall k :: 4 <= k < UnitEnd(s) ==> IsSpace(s[..UnitEnd(s)][k])
  {
    var a := UnitEnd(s);
    SpaceRunSpec(s[4..]);
    forall k | 4 <= k < a ensures IsSpace(s[..a][k]) {
      assert s[..a][k] == s[4..][k - 4];
    }
    assert s[..a][..4] == s[..4];
  }

  /** A run followed by text that starts neither with `<br>` nor (after a
      non-empty run) with whitespace keeps its unit count and length. */
  lemma {:induction false} RunThenText(s: string, x: string)
    requires !OpensBreak(x)
    requires RunLen(s) > 0 ==> x == [] || !IsSpace(x[0])
    ensures Units(s[..RunLen(s)] + x) == Units(s)
    ensures RunLen(s[..RunLen(s)] + x) == RunLen(s)
    decreases |s|
  {
    if !OpensBreak(s) {
      assert s[..RunLen(s)] + x == x;
    } else {
      RunThenText(s[UnitEnd(s)..], x);
      RunThenTextStep(s, x);
    }
  }

  /** The step of RunThenText: the first unit, then the rest of the run. */
  lemma RunThenTextStep(s: string, x: string)
    requires OpensBreak(s) && (x == [] || !IsSpace(x[0]))
    requires Units(s[UnitEnd(s)..][..RunLen(s[UnitEnd(s)..])] + x) == Units(s[UnitEnd(s)..])
    requires RunLen(s[UnitEnd(s)..][..RunLen(s[UnitEnd(s)..])] + x) == RunLen(s[UnitEnd(s)..])
    ensures Units(s[..RunLen(s)] + x) == Units(s)
    ensures RunLen(s[..RunLen(s)] + x) == RunLen(s)
  {
    RunSplits(s, x);
    RestStartsSolid(s[UnitEnd(s)..], x);
    UnitThenRun(s, s[UnitEnd(s)..][..RunLen(s[UnitEnd(s)..])] + x);
  }

  /** A run, then x, is the first unit followed by the rest of the run, then x. */
  lemma RunSplits(s: string, x: string)
    requires OpensBreak(s)
    ensures s[..RunLen(s)] + x == s[..UnitEnd(s)] + (s[UnitEnd(s)..][..RunLen(s[UnitEnd(s)..])] + x)
  {
    TakeTake(s, UnitEnd(s), RunLen(s[UnitEnd(s)..]), x);
  }

  /** A run followed by text that does not start with whitespace does not
      itself start with whitespace. */
  lemma RestStartsSolid(r: string, x: string)
    requires x == [] || !IsSpace(x[0])
    ensures r[..RunLen(r)] + x == [] || !IsSpace((r[..RunLen(r)] + x)[0])
  {
    if RunLen(r) > 0 {
      assert (r[..RunLen(r)] + x)[0] == r[0];
    }
  }

  /** The first unit of a run, then text that does not start with
      whitespace: one unit more than the text has. */
  lemma UnitThenRun(s: string, y: string)
    requires OpensBreak(s)
    requires y == [] || !IsSpace(y[0])
    ensures Units(s[..UnitEnd(s)] + y) == 1 + Units(y)
    ensures RunLen(s[..UnitEnd(s)] + y) == UnitEnd(s) + RunLen(y)
  {
    FirstUnitSpaces(s);
    UnitThen(s[..UnitEnd(s)], y);
  }

  /** The collapse never touches the first four characters: it copies short
      text whole and otherwise starts with the same four. */
  lemma {:induction false} CollapseKeepsHead(u: string)
    ensures |u| < 4 ==> CollapseBreaks(u) == u
    ensures |u| >= 4 ==> |CollapseBreaks(u)| >= 4 && CollapseBreaks(u)[..4] == u[..4]
    decreases |u|
  {
    if u != [] && Units(u) < 3 {
      CollapseKeepsHead(u[1..]);
      assert u[0..] == u;
      CopyOne(u);
      HeadKept(u, CollapseBreaks(u[1..]), CollapseBreaks(u));
    }
  }

  /** Putting the first element of u back in front of a sequence that keeps
      the first four elements of the rest of u keeps the first four of u. */
  lemma HeadKept<T>(u: seq<T>, c: seq<T>, r: seq<T>)
    requires u != [] && r == [u[0]] + c
    requires |u[1..]| < 4 ==> c == u[1..]
    requires |u[1..]| >= 4 ==> |c| >= 4 && c[..4] == u[1..][..4]
    ensures |u| < 4 ==> r == u
    ensures |u| >= 4 ==> |r| >= 4 && r[..4] == u[..4]
  {
    if |u| <= 4 {
      assert u == [u[0]] + u[1..];
    } else {
      assert r[..4] == [u[0]] + c[..3];
      assert c[..3] == u[1..4];
      assert u[..4] == [u[0]] + u[1..4];
    }
  }

  /** Hence the collapse starts with `<br>`, starts with whitespace or is
      empty exactly when its input does. */
  lemma CollapseKeepsStart(u: string)
    ensures OpensBreak(CollapseBreaks(u)) <==> OpensBreak(u)
    ensures CollapseBreaks(u) == [] <==> u == []
    ensures u != [] ==> CollapseBreaks(u)[0] == u[0]
  {
    CollapseKeepsHead(u);
    if |u| >= 4 {
      assert CollapseBreaks(u)[0] == CollapseBreaks(u)[..4][0];
    }
  }

  lemma BreakBreakThen(x: string)
    requires !OpensBreak(x) && (x == [] || !IsSpace(x[0]))
    ensures Units("<br>" + x) == 1
    ensures Units("<br><br>" + x) == 2
  {
    var t1 := "<br>" + x;
    assert t1[..4] == "<br>" && t1[4..] == x;
    assert SpaceRun(x) == 0;
    assert UnitEnd(t1) == 4;
    var t2 := "<br>" + t1;
    assert t2 == "<br><br>" + x;
    assert t2[..4] == "<br>" && t2[4..] == t1;
    assert SpaceRun(t1) == 0 by {
      assert t1[0] == '<';
    }
    assert UnitEnd(t2) == 4;
  }

  /** Positions inside the tail x of h + x start a run only where they
      do in x. */
  lemma NoRunJoin(h: string, x: string)
    requires NoBreakRun(x)
    requires forall p :: 0 <= p < |h| ==> !BreakRunAt(h + x, p)
    ensures NoBreakRun(h + x)
  {
    forall p | |h| <= p < |h + x| ensures !BreakRunAt(h + x, p) {
      assert (h + x)[p..] == x[p - |h|..];
      assert !BreakRunAt(x, p - |h|);
    }
  }

  /** What follows a run: no `<br>`, no whitespace. */
  lemma AfterRun(s: string)
    requires OpensBreak(s)
    ensures !OpensBreak(s[RunLen(s)..])
    ensures s[RunLen(s)..] == [] || !IsSpace(s[RunLen(s)..][0])
  {
    RunEnd(s);
    if RunLen(s) < |s| {
      assert s[RunLen(s)..][0] == s[RunLen(s)];
    }
  }

  /** The same holds once what follows has itself been collapsed. */
  lemma AfterRunCollapsed(s: string)
    requires OpensBreak(s)
    ensures !OpensBreak(CollapseBreaks(s[RunLen(s)..]))
    ensures CollapseBreaks(s[RunLen(s)..]) == [] || !IsSpace(CollapseBreaks(s[RunLen(s)..])[0])
  {
    AfterRun(s);
    CollapseKeepsStart(s[RunLen(s)..]);
  }

  lemma LongRunHead(x: string)
    requires !OpensBreak(x) && (x == [] || !IsSpace(x[0]))
    ensures forall p :: 0 <= p < |"<br><br>"| ==> !BreakRunAt("<br><br>" + x, p)
  {
    BreakBreakThen(x);
    var t := "<br><br>" + x;
    forall p | 0 <= p < 8 ensures !BreakRunAt(t, p) {
      if p == 0 {
        assert t[0..] == t;
      } else if p == 4 {
        assert t[4..] == "<br>" + x;
      } else {
        assert t[p..][0] == t[p];
      }
    }
  }

  /** A run of three or more units became `<br><br>`. */
  lemma LongRunCase(s: string)
    requires Units(s) >= 3
    requires NoBreakRun(CollapseBreaks(s[RunLen(s)..]))
    ensures NoBreakRun(CollapseBreaks(s))
  {
    var x := CollapseBreaks(s[RunLen(s)..]);
    AfterRunCollapsed(s);
    LongRunHead(x);
    NoRunJoin("<br><br>", x);
  }

  /** A character with no `<br>` at it was copied. */
  lemma PlainCase(s: string)
    requires s != [] && !OpensBreak(s)
    requires NoBreakRun(CollapseBreaks(s[1..]))
    ensures NoBreakRun(CollapseBreaks(s))
  {
    var x := CollapseBreaks(s[1..]);
    CollapseKeepsStart(s);
    assert CollapseBreaks(s) == [s[0]] + x;
    assert !BreakRunAt([s[0]] + x, 0) by {
      assert ([s[0]] + x)[0..] == [s[0]] + x;
    }
    NoRunJoin([s[0]], x);
  }

  /** A run of one or two units was copied whole. */
  lemma ShortRunCase(s: string)
    requires 0 < Units(s) < 3
    requires NoBreakRun(CollapseBreaks(s[RunLen(s)..]))
    ensures NoBreakRun(CollapseBreaks(s))
  {
    var L := RunLen(s);
    var x := CollapseBreaks(s[L..]);
    CopyShortRun(s);
    AfterRunCollapsed(s);
    RunThenText(s, x);
    var t := s[..L] + x;
    forall p | 0 <= p < L ensures !BreakRunAt(t, p) {
      assert t[0..] == t;
      if p > 0 { RunUnitsBelow(t, p); }
    }
    NoRunJoin(s[..L], x);
  }

  /** After the collapse, no run of three or more `<br>` remains. */
  lemma {:induction false} CollapseLeavesNoRun(s: string)
    ensures NoBreakRun(CollapseBreaks(s))
    decreases |s|
  {
    if s != [] {
      if Units(s) >= 3 {
        CollapseLeavesNoRun(s[RunLen(s)..]);
        LongRunCase(s);
      } else if !OpensBreak(s) {
        CollapseLeavesNoRun(s[1..]);
        PlainCase(s);
      } else {
        CollapseLeavesNoRun(s[RunLen(s)..]);
        ShortRunCase(s);
      }
    }
  }

  // ---------------------------------------------------------------------
  // The whole filter

  /** The filter's output for a description: empty for empty input, else
      the four phases in order. */
  function DescriptionHtml(markers: seq<string>, value: string): string
  {
    if value == [] then []
    else CollapseBreaks(Italic(Bold(Concat(Joined(Texts(Entries(Rendered(markers, Split(value, '\n')))))))))
  }

  /** `format_product_description(value)` for a string value (`None` and the
      empty string are both falsy and give the empty string). */
  method FormatProductDescription(markers: seq<string>, value: string) returns (html: string)
    ensures value == [] ==> html == []
    ensures html == DescriptionHtml(markers, value)
    ensures NoBreakRun(html)
  {
    if value == [] {
      return [];
    }
    var lines := Split(value, '\n');
    var formatted := FormatLines(markers, lines);
    var resultLines := JoinLines(formatted);
    html := Concat(resultLines);
    html := Bold(html);
    html := Italic(html);
    html := CollapseBreaks(html);
    CollapseLeavesNoRun(Italic(Bold(Concat(resultLines))));
  }
}
