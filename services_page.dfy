/**
 * The services page (app/services/page.tsx): the classifier that turns an
 * accordion item's text into list items, and the per-section record of
 * which accordion item is open.
 */
module ServicesPage {
  import opened Wrappers
  import opened JsString

  const Bullet: char := '\U{2022}'

  // The regular expression /^•\s*(.+?):\s*(.*)$/ is matched by hand, with
  // JavaScript's backtracking order: greedy `\s*` tries its longest run
  // first, lazy `.+?` its shortest; `.` matches anything but a line
  // terminator; `$` is the end of the input. The functions below work on
  // `u`, the line after its bullet, by index.

  /** No line terminator among `u[i..j]`. */
  predicate NoLineTerminatorIn(u: string, i: nat, j: nat)
    requires i <= j <= |u|
  {
    forall p :: i <= p < j ==> !IsLineTerminator(u[p])
  }

  /** `\s*(.*)$` from `u[from]`, with `\s*` ending at `j`, then earlier:
      the start of group 2. */
  function MatchRest(u: string, from: nat, j: nat): (o: Option<nat>)
    requires from <= |u| && from <= j <= WhitespaceEnd(u, from)
    ensures o.Some? ==> from <= o.value <= |u| && NoLineTerminatorIn(u, o.value, |u|)
    decreases j
  {
    if NoLineTerminatorIn(u, j, |u|) then Some(j)
    else if j == from then None
    else MatchRest(u, from, j - 1)
  }

  /** `\s*(.*)$` matches `u[from..]`. */
  predicate RestMatches(u: string, from: nat)
    requires from <= |u|
  {
    MatchRest(u, from, WhitespaceEnd(u, from)).Some?
  }

  /** Backing off the greedy `\s*` never helps: group 2 is what follows the
      whole whitespace run, and the rest matches iff that has no line terminator. */
  lemma {:induction false} MatchRestAtRunEnd(u: string, from: nat)
    requires from <= |u|
    ensures var w := WhitespaceEnd(u, from);
      MatchRest(u, from, w) == if NoLineTerminatorIn(u, w, |u|) then Some(w) else None
  {
    var w := WhitespaceEnd(u, from);
    if !NoLineTerminatorIn(u, w, |u|) {
      var p :| w <= p < |u| && IsLineTerminator(u[p]);
      NoShorterRest(u, from, w, p);
    }
  }

  lemma {:induction false} NoShorterRest(u: string, from: nat, j: nat, p: nat)
    requires from <= |u| && from <= j <= WhitespaceEnd(u, from)
    requires j <= p < |u| && IsLineTerminator(u[p])
    ensures MatchRest(u, from, j) == None
    decreases j
  {
    if j > from {
      NoShorterRest(u, from, j - 1, p);
    }
  }

  /** Group 1 may be `u[k..e]`, followed by its colon at `u[e]`. */
  predicate ValidColon(u: string, k: nat, e: nat)
  {
    k < e < |u| && NoLineTerminatorIn(u, k, e) && u[e] == ':' && RestMatches(u, e + 1)
  }

  /** Lazy `(.+?):` from `u[k]` with at least `m` characters: the first
      colon that lets the rest of the pattern match. */
  function TitleEnd(u: string, k: nat, m: nat): (o: Option<nat>)
    requires m >= 1 && k + m <= |u| + 1
    requires NoLineTerminatorIn(u, k, k + m - 1)
    ensures o.Some? ==> k + m <= o.value && ValidColon(u, k, o.value)
    decreases |u| - k - m
  {
    if k + m > |u| then None
    else if IsLineTerminator(u[k + m - 1]) then None
    else if k + m < |u| && u[k + m] == ':' && RestMatches(u, k + m + 1) then Some(k + m)
    else TitleEnd(u, k, m + 1)
  }

  /** The lazy group stops at the first admissible colon. */
  lemma {:induction false} TitleEndIsFirstColon(u: string, k: nat, m: nat)
    requires m >= 1 && k + m <= |u| + 1
    requires NoLineTerminatorIn(u, k, k + m - 1)
    requires TitleEnd(u, k, m).Some?
    ensures forall e :: k + m <= e < TitleEnd(u, k, m).value ==> !ValidColon(u, k, e)
    decreases |u| - k - m
  {
    if !(k + m < |u| && u[k + m] == ':' && RestMatches(u, k + m + 1)) {
      assert !ValidColon(u, k, k + m);
      TitleEndIsFirstColon(u, k, m + 1);
    }
  }

  /** When the lazy group fails, no colon from `u[k + m]` on is admissible. */
  lemma {:induction false} TitleEndFailsOnlyWithoutColon(u: string, k: nat, m: nat)
    requires m >= 1 && k + m <= |u| + 1
    requires NoLineTerminatorIn(u, k, k + m - 1)
    requires TitleEnd(u, k, m).None?
    ensures forall e :: k + m <= e ==> !ValidColon(u, k, e)
    decreases |u| - k - m
  {
    if k + m > |u| {
    } else if IsLineTerminator(u[k + m - 1]) {
      assert forall e :: k + m <= e <= |u| ==> !NoLineTerminatorIn(u, k, e);
    } else {
      assert !ValidColon(u, k, k + m);
      TitleEndFailsOnlyWithoutColon(u, k, m + 1);
    }
  }

  /** Greedy `\s*` after the bullet takes `k` characters, then fewer; for
      each, the lazy title. Yields (start of group 1, position of its colon). */
  function BoldSplitFrom(u: string, k: nat): (o: Option<(nat, nat)>)
    requires k <= WhitespaceEnd(u, 0)
    ensures o.Some? ==> o.value.0 <= k && ValidColon(u, o.value.0, o.value.1)
    decreases k
  {
    match TitleEnd(u, k, 1)
    case Some(e) => Some((k, e))
    case None => if k == 0 then None else BoldSplitFrom(u, k - 1)
  }

  /** The split taken is the one backtracking reaches first: the longest
      whitespace run that admits a title, and then the shortest title. */
  lemma {:induction false} BoldSplitIsFirst(u: string, k: nat)
    requires k <= WhitespaceEnd(u, 0)
    requires BoldSplitFrom(u, k).Some?
    ensures var (k0, e0) := BoldSplitFrom(u, k).value;
      && (forall e :: k0 < e < e0 ==> !ValidColon(u, k0, e))
      && (forall k', e :: k0 < k' <= k ==> !ValidColon(u, k', e))
    decreases k
  {
    if TitleEnd(u, k, 1).Some? {
      TitleEndIsFirstColon(u, k, 1);
    } else {
      TitleEndFailsOnlyWithoutColon(u, k, 1);
      BoldSplitIsFirst(u, k - 1);
    }
  }

  /** No split at all: no whitespace run up to `k` characters is followed by
      an admissible title. */
  lemma {:induction false} BoldSplitFailsOnlyWithoutColon(u: string, k: nat)
    requires k <= WhitespaceEnd(u, 0)
    requires BoldSplitFrom(u, k).None?
    ensures forall k': nat, e: nat :: k' <= k ==> !ValidColon(u, k', e)
    decreases k
  {
    TitleEndFailsOnlyWithoutColon(u, k, 1);
    if k > 0 {
      BoldSplitFailsOnlyWithoutColon(u, k - 1);
    }
  }

  /** Where a match puts its groups in `u`: group 1 is `u[k..e]`, its colon
      is `u[e]`, and group 2 is `u[b..]`. */
  datatype Spans = Spans(k: nat, e: nat, b: nat)

  predicate SpansIn(u: string, sp: Spans)
  {
    sp.k <= sp.e < sp.b <= |u|
  }

  function Groups(u: string, sp: Spans): (string, string)
    requires SpansIn(u, sp)
  {
    (u[sp.k..sp.e], u[sp.b..])
  }

  /** The pattern after its `•`, on the line's remainder `u`. */
  function MatchSpans(u: string): (o: Option<Spans>)
    ensures o.Some? ==> SpansIn(u, o.value)
  {
    match BoldSplitFrom(u, WhitespaceEnd(u, 0))
    case None => None
    case Some((k, e)) => Some(Spans(k, e, MatchRest(u, e + 1, WhitespaceEnd(u, e + 1)).value))
  }

  /** `trimmed.match(/^•\s*(.+?):\s*(.*)$/)`: groups 1 and 2, or None. */
  function MatchBold(t: string): (o: Option<(string, string)>)
    ensures o.Some? ==> |t| > 0 && t[0] == Bullet
  {
    if |t| == 0 || t[0] != Bullet then None
    else
      match MatchSpans(t[1..])
      case None => None
      case Some(sp) => Some(Groups(t[1..], sp))
  }

  /** The lazy group reaches every admissible colon: it stops at one no later. */
  lemma {:induction false} TitleEndFindsColon(u: string, k: nat, m: nat, e: nat)
    requires m >= 1 && k + m <= e
    requires ValidColon(u, k, e)
    requires NoLineTerminatorIn(u, k, k + m - 1)
    ensures TitleEnd(u, k, m).Some? && TitleEnd(u, k, m).value <= e
    decreases e - k - m
  {
    if TitleEnd(u, k, m) != Some(k + m) {
      TitleEndFindsColon(u, k, m + 1, e);
    }
  }

  /** The pattern's language: the regex matches exactly when the line is a
      bullet, a whitespace run, at least one character without line
      terminator, a colon, and a rest that has no line terminator once its
      leading whitespace is dropped. */
  lemma MatchBoldIffRegex(t: string)
    ensures MatchBold(t).Some? <==>
      |t| > 0 && t[0] == Bullet &&
      exists k: nat, e: nat :: k <= WhitespaceEnd(t[1..], 0) && ValidColon(t[1..], k, e)
  {
    if |t| > 0 && t[0] == Bullet {
      var u := t[1..];
      if BoldSplitFrom(u, WhitespaceEnd(u, 0)).None? {
        BoldSplitFailsOnlyWithoutColon(u, WhitespaceEnd(u, 0));
      } else {
        var (k, e) := BoldSplitFrom(u, WhitespaceEnd(u, 0)).value;
        assert k <= WhitespaceEnd(u, 0) && ValidColon(u, k, e);
      }
    }
  }

  /** The line as the pattern reads it: bullet, whitespace, title, colon,
      whitespace, body. */
  ghost predicate BoldShape(t: string, title: string, body: string)
  {
    exists ws, ws' :: AllWhitespace(ws) && AllWhitespace(ws') &&
      t == [Bullet] + ws + title + [':'] + ws' + body
  }

  /** Groups as the pattern shapes them: the title is not empty, neither
      group holds a line terminator, the body does not start with
      whitespace, and the line is bullet, whitespace, title, colon,
      whitespace, body. */
  ghost predicate WellShapedGroups(t: string, title: string, body: string)
  {
    && |title| >= 1 && NoLineTerminator(title) && NoLineTerminator(body)
    && (|body| == 0 || !IsWhitespace(body[0]))
    && BoldShape(t, title, body)
  }

  /** A match decomposes the line as the pattern says. */
  lemma MatchBoldShape(t: string)
    requires MatchBold(t).Some?
    ensures WellShapedGroups(t, MatchBold(t).value.0, MatchBold(t).value.1)
  {
    var u := t[1..];
    var sp := MatchSpans(u).value;
    MatchSpansFacts(u);
    ShapeFromSplit(t, u, sp.k, sp.e, sp.b);
  }

  /** The spans of a match: an admissible colon, and a body from the end of
      the whitespace after it with no line terminator. */
  lemma MatchSpansFacts(u: string)
    requires MatchSpans(u).Some?
    ensures var sp := MatchSpans(u).value;
      sp.k <= WhitespaceEnd(u, 0) && ValidColon(u, sp.k, sp.e) &&
      sp.b == WhitespaceEnd(u, sp.e + 1) && NoLineTerminatorIn(u, sp.b, |u|)
  {
    var (k, e) := BoldSplitFrom(u, WhitespaceEnd(u, 0)).value;
    MatchRestAtRunEnd(u, e + 1);
  }

  lemma ShapeFromSplit(t: string, u: string, k: nat, e: nat, b: nat)
    requires |t| > 0 && t[0] == Bullet && u == t[1..]
    requires k <= WhitespaceEnd(u, 0) && ValidColon(u, k, e)
    requires b == WhitespaceEnd(u, e + 1) && NoLineTerminatorIn(u, b, |u|)
    ensures WellShapedGroups(t, u[k..e], u[b..])
  {
    SliceNoLineTerminator(u, k, e);
    SliceNoLineTerminator(u, b, |u|);
    SliceWhitespace(u, 0, k);
    SliceWhitespace(u, e + 1, b);
    FiveParts(t, u, k, e, b);
  }

  lemma SliceNoLineTerminator(u: string, i: nat, j: nat)
    requires i <= j <= |u| && NoLineTerminatorIn(u, i, j)
    ensures NoLineTerminator(u[i..j])
  {
    assert forall p :: 0 <= p < j - i ==> u[i..j][p] == u[i + p];
  }

  lemma SliceWhitespace(u: string, i: nat, j: nat)
    requires i <= j <= |u| && forall p :: i <= p < j ==> IsWhitespace(u[p])
    ensures AllWhitespace(u[i..j])
  {
    assert forall p :: 0 <= p < j - i ==> u[i..j][p] == u[i + p];
  }

  lemma FiveParts(t: string, u: string, k: nat, e: nat, b: nat)
    requires |t| > 0 && t[0] == Bullet && u == t[1..]
    requires k < e < b + 1 <= |u| + 1 && e + 1 <= b && u[e] == ':'
    requires AllWhitespace(u[..k]) && AllWhitespace(u[e + 1..b])
    ensures BoldShape(t, u[k..e], u[b..])
  {
    assert u == u[..k] + u[k..e] + [':'] + u[e + 1..b] + u[b..];
    assert t == [Bullet] + u[..k] + u[k..e] + [':'] + u[e + 1..b] + u[b..];
  }

  /** What the pattern yields on a line without line terminators, read off
      directly: after the bullet's whitespace, the title runs from the next
      character to the first colon after it, and the body is what `TrimStart`
      leaves of the text after that colon. When the only colon comes straight
      after the whitespace, the last whitespace character is the title. */
  function BoldOnSingleLine(t: string): Option<(string, string)>
  {
    if |t| == 0 || t[0] != Bullet then None
    else
      match ReadSpans(t[1..])
      case None => None
      case Some(sp) => Some(Groups(t[1..], sp))
  }

  /** The spans of the direct reading: the title from the end of the leading
      whitespace to the first colon after its first character, the body from
      the end of the whitespace after that colon. */
  function ReadSpans(u: string): (o: Option<Spans>)
    ensures o.Some? ==> SpansIn(u, o.value)
    ensures o.Some? ==> u[o.value.e] == ':' && o.value.b == WhitespaceEnd(u, o.value.e + 1)
  {
    var w := WhitespaceEnd(u, 0);
    match IndexOf(u, ':', w + 1)
    case Some(c) => Some(Spans(w, c, WhitespaceEnd(u, c + 1)))
    case None =>
      if 1 <= w < |u| && u[w] == ':' then Some(Spans(w - 1, w, WhitespaceEnd(u, w + 1))) else None
  }

  /** The body of the direct reading is `TrimStart` of the text after the colon. */
  lemma ReadBodyIsTrimStart(u: string)
    requires ReadSpans(u).Some?
    ensures var sp := ReadSpans(u).value;
      sp.e + 1 <= |u| && Groups(u, sp).1 == TrimStart(u[sp.e + 1..])
  {
    var sp := ReadSpans(u).value;
    assert u[sp.b..] == TrimStart(u[sp.e + 1..]) by {
      TrimStartFrom(u, sp.e + 1);
    }
  }

  /** A title of the direct reading that starts after the whitespace starts
      where `TrimStart` of the whole text does. */
  lemma ReadTitleIsTrimStart(u: string)
    requires ReadSpans(u).Some? && ReadSpans(u).value.k == WhitespaceEnd(u, 0)
    ensures u[ReadSpans(u).value.k..] == TrimStart(u)
  {
    assert u[0..] == u;
    TrimStartFrom(u, 0);
  }

  lemma MatchBoldOnSingleLine(t: string)
    requires NoLineTerminator(t)
    ensures MatchBold(t) == BoldOnSingleLine(t)
  {
    if |t| > 0 && t[0] == Bullet {
      var u := t[1..];
      assert NoLineTerminator(u) by {
        assert forall p :: 0 <= p < |u| ==> u[p] == t[p + 1];
      }
      SpansOnSingleLine(u);
    }
  }

  lemma SpansOnSingleLine(u: string)
    requires NoLineTerminator(u)
    ensures MatchSpans(u) == ReadSpans(u)
  {
    var w := WhitespaceEnd(u, 0);
    match IndexOf(u, ':', w + 1)
    case Some(c) =>
      SingleLineColonAfterTitle(u);
      SingleLineRest(u, c + 1);
      ColonSpansAgree(u, c);
    case None =>
      SingleLineNoColonAfterTitle(u);
      if 1 <= w < |u| && u[w] == ':' {
        SingleLineRest(u, w + 1);
      }
      NoColonSpansAgree(u);
  }

  lemma ColonSpansAgree(u: string, c: nat)
    requires IndexOf(u, ':', WhitespaceEnd(u, 0) + 1) == Some(c)
    requires BoldSplitFrom(u, WhitespaceEnd(u, 0)) == Some((WhitespaceEnd(u, 0), c))
    requires MatchRest(u, c + 1, WhitespaceEnd(u, c + 1)) == Some(WhitespaceEnd(u, c + 1))
    ensures MatchSpans(u) == ReadSpans(u)
  {
  }

  lemma NoColonSpansAgree(u: string)
    requires IndexOf(u, ':', WhitespaceEnd(u, 0) + 1).None?
    requires var w := WhitespaceEnd(u, 0);
      BoldSplitFrom(u, w) == if 1 <= w < |u| && u[w] == ':' then Some((w - 1, w)) else None
    requires var w := WhitespaceEnd(u, 0);
      1 <= w < |u| && u[w] == ':' ==>
        MatchRest(u, w + 1, WhitespaceEnd(u, w + 1)) == Some(WhitespaceEnd(u, w + 1))
    ensures MatchSpans(u) == ReadSpans(u)
  {
  }

  lemma NoLineTerminatorAnywhere(u: string, i: nat, j: nat)
    requires NoLineTerminator(u) && i <= j <= |u|
    ensures NoLineTerminatorIn(u, i, j)
  {
  }

  /** Without line terminators the rest after any colon matches, and group 2
      starts where the whitespace after the colon ends. */
  lemma SingleLineRest(u: string, j: nat)
    requires NoLineTerminator(u) && j <= |u|
    ensures MatchRest(u, j, WhitespaceEnd(u, j)) == Some(WhitespaceEnd(u, j))
  {
    MatchRestAtRunEnd(u, j);
    NoLineTerminatorAnywhere(u, WhitespaceEnd(u, j), |u|);
  }

  lemma SingleLineColonAfterTitle(u: string)
    requires NoLineTerminator(u)
    requires IndexOf(u, ':', WhitespaceEnd(u, 0) + 1).Some?
    ensures var w := WhitespaceEnd(u, 0);
      var c := IndexOf(u, ':', w + 1).value;
      BoldSplitFrom(u, w) == Some((w, c))
  {
    var w := WhitespaceEnd(u, 0);
    var c := IndexOf(u, ':', w + 1).value;
    SingleLineRest(u, c + 1);
    NoLineTerminatorAnywhere(u, w, c);
    TitleEndAtFirstColon(u, w, 1, c);
  }

  lemma SingleLineNoColonAfterTitle(u: string)
    requires NoLineTerminator(u)
    requires IndexOf(u, ':', WhitespaceEnd(u, 0) + 1).None?
    ensures var w := WhitespaceEnd(u, 0);
      BoldSplitFrom(u, w) == if 1 <= w < |u| && u[w] == ':' then Some((w - 1, w)) else None
  {
    var w := WhitespaceEnd(u, 0);
    if 1 <= w < |u| && u[w] == ':' {
      TitleEndWithoutColon(u, w, 1);
      SingleLineRest(u, w + 1);
      assert TitleEnd(u, w - 1, 1) == Some(w);
    } else {
      assert forall i :: 1 <= i < |u| ==> u[i] != ':' by {
        assert !IsWhitespace(':');
      }
      BoldSplitWithoutColon(u, w);
    }
  }

  /** With no line terminator up to it, the lazy group stops at the first colon
      from `u[k + m]` on when the rest after that colon matches. */
  lemma {:induction false} TitleEndAtFirstColon(u: string, k: nat, m: nat, c: nat)
    requires m >= 1 && k + m <= c < |u| && u[c] == ':' && RestMatches(u, c + 1)
    requires NoLineTerminatorIn(u, k, c)
    requires forall i :: k + m <= i < c ==> u[i] != ':'
    ensures TitleEnd(u, k, m) == Some(c)
    decreases c - k - m
  {
    if k + m < c {
      TitleEndAtFirstColon(u, k, m + 1, c);
    }
  }

  /** Without a colon from `u[k + m]` on, the lazy group fails. */
  lemma {:induction false} TitleEndWithoutColon(u: string, k: nat, m: nat)
    requires m >= 1 && k + m <= |u| + 1
    requires NoLineTerminatorIn(u, k, k + m - 1)
    requires forall i :: k + m <= i < |u| ==> u[i] != ':'
    ensures TitleEnd(u, k, m) == None
    decreases |u| - k - m
  {
    if k + m <= |u| && !IsLineTerminator(u[k + m - 1]) {
      TitleEndWithoutColon(u, k, m + 1);
    }
  }

  /** Without a colon after the first character, no split exists. */
  lemma {:induction false} BoldSplitWithoutColon(u: string, k: nat)
    requires k <= WhitespaceEnd(u, 0)
    requires forall i :: 1 <= i < |u| ==> u[i] != ':'
    ensures BoldSplitFrom(u, k) == None
    decreases k
  {
    TitleEndWithoutColon(u, k, 1);
    if k > 0 {
      BoldSplitWithoutColon(u, k - 1);
    }
  }

  //
  // formatContent
  //

  /** What `formatContent` renders for one line. */
  datatype ListItem =
    | Nested(text: string)               // `<li class="ml-4 list-[circle]">text</li>`
    | Bold(title: string, body: string)  // `<li><strong>title:</strong> body</li>`
    | Plain(text: string)                // `<li>text</li>`

  // `trimmed.replace(/^•\s*/, "")`: the bullet and the whitespace after it removed.
  function StripBullet(t: string): (r: string)
    ensures |t| > 0 && t[0] == Bullet ==>
      |r| < |t| && r == t[|t| - |r|..] && AllWhitespace(t[1..|t| - |r|])
    ensures |t| > 0 && t[0] == Bullet ==> |r| == 0 || !IsWhitespace(r[0])
    ensures !(|t| > 0 && t[0] == Bullet) ==> r == t
  {
    if |t| > 0 && t[0] == Bullet then
      var r := TrimStart(t[1..]);
      assert t[1..][|t| - 1 - |r|..] == t[|t| - |r|..];
      assert t[1..][..|t| - 1 - |r|] == t[1..|t| - |r|];
      r
    else t
  }

  /** One line of an accordion item's text. The dash test runs first, so a
      dashed line is never bold. */
  function Classify(line: string): (r: ListItem)
    ensures var t := Trim(line);
      r.Nested? <==> |t| > 0 && t[0] == '-'
    ensures var t := Trim(line);
      r.Nested? ==> r.text == Trim(t[1..])
    ensures r.Bold? ==> MatchBold(Trim(line)) == Some((r.title, r.body))
    ensures var t := Trim(line);
      r.Plain? ==> MatchBold(t).None? && r.text == StripBullet(t)
  {
    var trimmed := Trim(line);
    if |trimmed| > 0 && trimmed[0] == '-' then Nested(Trim(trimmed[1..]))
    else
      match MatchBold(trimmed)
      case Some((title, body)) => Bold(title, body)
      case None => Plain(StripBullet(trimmed))
  }

  /** A bold item comes from a bullet line of the pattern's shape. */
  lemma BoldItemShape(line: string)
    requires Classify(line).Bold?
    ensures |Trim(line)| > 0 && Trim(line)[0] == Bullet
    ensures WellShapedGroups(Trim(line), Classify(line).title, Classify(line).body)
  {
    MatchBoldShape(Trim(line));
  }

  /** `formatContent(content)`: one item per `"\n"`-separated line, in order. */
  function FormatContent(content: string): (items: seq<ListItem>)
    ensures |items| == |Split(content, '\n')| == Count(content, '\n') + 1
    ensures forall i :: 0 <= i < |items| ==> items[i] == Classify(Split(content, '\n')[i])
  {
    var lines := Split(content, '\n');
    SplitLength(content, '\n');
    seq(|lines|, i requires 0 <= i < |lines| => Classify(lines[i]))
  }

  //
  // The accordion
  //

  datatype AccordionEntry = AccordionEntry(title: string, content: string)

  datatype Section = Section(heading: string, items: seq<AccordionEntry>)

  /** `openItems`: a section index to the index of its open item, `None` for `null`. */
  type OpenItems = map<nat, Option<nat>>

  /** The `isOpen` test `openItems[sectionIndex] === itemIndex`; a missing key is `undefined`. */
  predicate IsOpen(openItems: OpenItems, section: nat, item: nat)
  {
    section in openItems && openItems[section] == Some(item)
  }

  /** The initial `openItems`, built by `sections.forEach`: every section
      with its first item open. */
  method InitialOpenItems(sections: seq<Section>) returns (initial: OpenItems)
    ensures forall s: nat :: s in initial <==> s < |sections|
    ensures forall s :: s in initial ==> initial[s] == Some(0)
    ensures forall s: nat, i: nat :: IsOpen(initial, s, i) <==> s < |sections| && i == 0
  {
    initial := map[];
    for i := 0 to |sections|
      invariant forall s: nat :: s in initial <==> s < i
      invariant forall s :: s in initial ==> initial[s] == Some(0)
    {
      initial := initial[i := Some(0)];
    }
  }

  /** `toggleItem(sectionIndex, itemIndex)`: the clicked item becomes the
      section's open item unless it already was, which closes the section;
      other sections keep their entries. */
  function ToggleItem(openItems: OpenItems, section: nat, item: nat): (r: OpenItems)
    ensures r.Keys == openItems.Keys + {section}
    ensures forall i: nat :: IsOpen(r, section, i) <==> i == item && !IsOpen(openItems, section, item)
    ensures forall s :: s in openItems && s != section ==> r[s] == openItems[s]
  {
    openItems[section := if IsOpen(openItems, section, item) then None else Some(item)]
  }

  /** At most one item of a section is open. */
  lemma {:induction false} AtMostOneOpen(openItems: OpenItems, section: nat, itemCount: nat)
    ensures |set i: nat | i < itemCount && IsOpen(openItems, section, i)| <= 1
  {
    var open := set i: nat | i < itemCount && IsOpen(openItems, section, i);
    if section in openItems && openItems[section].Some? && openItems[section].value < itemCount {
      assert open == {openItems[section].value};
    } else {
      assert open == {};
    }
  }

  /** Toggling the same item twice restores its section when that item was
      open, and otherwise leaves the section closed. */
  lemma ToggleTwice(openItems: OpenItems, section: nat, item: nat)
    ensures ToggleItem(ToggleItem(openItems, section, item), section, item) ==
      if IsOpen(openItems, section, item) then openItems else openItems[section := None]
  {
  }
}
