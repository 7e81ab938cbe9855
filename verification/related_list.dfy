/** The text form of the related-organisation, related-people and
    related-vendor lists in the two entity dialogs: a stored list is shown as
    its items joined with ", ", and submitted text is split at commas,
    trimmed, and stripped of empty items. */
module RelatedList {
  import opened Wrappers
  import opened Text

  /** What the dialogs put between items when showing a list. */
  const Separator: string := ", "

  /** An item the parser can produce: non-empty, without commas, and without
      whitespace at either end. */
  predicate CleanItem(x: string) {
    x != [] && ',' !in x && IsTrimmed(x)
  }

  predicate AllClean(xs: seq<string>) {
    forall i :: 0 <= i < |xs| ==> CleanItem(xs[i])
  }

  /** Trimming a comma-free piece keeps it comma-free. */
  lemma TrimAvoids(p: string, c: char)
    ensures c !in p ==> c !in Trim(p)
  {
    TrimPadded(p);
    var k :| Padded(p, Trim(p), k);
    if c !in p {
      SliceAvoids(p, c, k, |Trim(p)|);
    }
  }

  /** No piece holds a comma, as after a split at commas. */
  predicate CommaFree(pieces: seq<string>) {
    forall i :: 0 <= i < |pieces| ==> ',' !in pieces[i]
  }

  /** `.map(s => s.trim()).filter(Boolean)` over the pieces of a split:
      never more items than pieces; `TidyClean` says what the items are. */
  function Tidy(pieces: seq<string>): (r: seq<string>)
    ensures |r| <= |pieces|
    decreases |pieces|
  {
    if pieces == [] then []
    else
      var t := Trim(pieces[0]);
      if t == [] then Tidy(pieces[1..]) else [t] + Tidy(pieces[1..])
  }

  /** Tidying comma-free pieces leaves only clean items. */
  lemma {:induction false} TidyClean(pieces: seq<string>)
    requires CommaFree(pieces)
    ensures AllClean(Tidy(pieces))
    decreases |pieces|
  {
    if pieces != [] {
      var rest := pieces[1..];
      CommaFreeTail(pieces);
      TidyClean(rest);
      assert ',' !in pieces[0];
      TrimClean(pieces[0]);
      assert pieces == [pieces[0]] + rest;
      TidyCons(pieces[0], rest);
      if Trim(pieces[0]) != [] {
        AllCleanCons(Trim(pieces[0]), Tidy(rest));
      }
    }
  }

  /** Dropping the first piece keeps a piece list comma-free. */
  lemma CommaFreeTail(pieces: seq<string>)
    requires pieces != [] && CommaFree(pieces)
    ensures CommaFree(pieces[1..])
  {
    forall i | 0 <= i < |pieces| - 1 ensures ',' !in pieces[1..][i] {
      assert pieces[1..][i] == pieces[i + 1];
    }
  }

  /** A clean item in front of a clean list gives a clean list. */
  lemma AllCleanCons(x: string, xs: seq<string>)
    requires CleanItem(x) && AllClean(xs)
    ensures AllClean([x] + xs)
  {
    forall i | 0 <= i < |xs| + 1 ensures CleanItem(([x] + xs)[i]) {
      if i > 0 {
        assert ([x] + xs)[i] == xs[i - 1];
      }
    }
  }

  /** A comma-free piece that does not trim to nothing trims to a clean
      item. */
  lemma TrimClean(p: string)
    ensures ',' !in p && Trim(p) != [] ==> CleanItem(Trim(p))
  {
    TrimAvoids(p, ',');
  }

  /** Tidying distributes over concatenation of the piece lists. */
  lemma {:induction false} TidyAppend(a: seq<string>, b: seq<string>)
    ensures Tidy(a + b) == Tidy(a) + Tidy(b)
    decreases |a|
  {
    if a == [] {
      assert a + b == b;
    } else {
      var t, ta, tb := Trim(a[0]), Tidy(a[1..]), Tidy(b);
      calc {
        Tidy(a + b);
        { assert a + b == [a[0]] + (a[1..] + b); }
        Tidy([a[0]] + (a[1..] + b));
        { TidyCons(a[0], a[1..] + b); TidyAppend(a[1..], b); }
        if t == [] then ta + tb else [t] + (ta + tb);
        { assert [t] + (ta + tb) == ([t] + ta) + tb; }
        (if t == [] then ta else [t] + ta) + tb;
        { assert a == [a[0]] + a[1..]; TidyCons(a[0], a[1..]); }
        Tidy(a) + tb;
      }
    }
  }

  /** One unfolding of `Tidy` on a list with a first piece. */
  lemma TidyCons(x: string, rest: seq<string>)
    ensures Tidy([x] + rest) == if Trim(x) == [] then Tidy(rest) else [Trim(x)] + Tidy(rest)
  {
    assert ([x] + rest)[0] == x && ([x] + rest)[1..] == rest;
  }

  /** `text.split(',').map(s => s.trim()).filter(Boolean)`: every item is
      clean (`BlankParsesEmpty`: blank text yields none). */
  function ParseList(text: string): (r: seq<string>)
    ensures AllClean(r)
  {
    TidyClean(Split(text, ','));
    Tidy(Split(text, ','))
  }

  /** Text made only of commas and whitespace has no items. */
  lemma {:induction false} BlankParsesEmpty(text: string)
    requires forall i :: 0 <= i < |text| ==> text[i] == ',' || IsSpace(text[i])
    ensures ParseList(text) == []
    decreases |text|
  {
    if text != [] {
      var rest := text[1..];
      assert forall i :: 0 <= i < |rest| ==> rest[i] == text[i + 1];
      BlankParsesEmpty(rest);
      var p := Split(rest, ',');
      if text[0] == ',' {
        assert Split(text, ',') == [[]] + p;
        assert ([[]] + p)[1..] == p;
      } else {
        assert Split(text, ',') == Extend(text[0], p);
        AllSpaceTidies(p);
        TrimEmptyAllSpace(p[0]);
        var q := [text[0]] + p[0];
        assert forall i :: 0 < i < |q| ==> q[i] == p[0][i - 1];
        AllSpaceTrims(q);
        assert Extend(text[0], p)[1..] == p[1..];
      }
    }
  }

  /** When every piece trims to nothing, so does every tail after the first. */
  lemma AllSpaceTidies(p: seq<string>)
    requires |p| >= 1 && Tidy(p) == []
    ensures Trim(p[0]) == [] && Tidy(p[1..]) == []
  {
  }

  /** Text that trims to nothing is all whitespace. */
  lemma TrimEmptyAllSpace(s: string)
    requires Trim(s) == []
    ensures forall i :: 0 <= i < |s| ==> IsSpace(s[i])
  {
    TrimPadded(s);
    var k :| Padded(s, Trim(s), k);
  }

  /** A string of whitespace trims to nothing. */
  lemma AllSpaceTrims(s: string)
    requires forall i :: 0 <= i < |s| ==> IsSpace(s[i])
    ensures Trim(s) == []
  {
    TrimPadded(s);
    var k :| Padded(s, Trim(s), k);
  }

  /** The optional form field: `value?.split(…)… || []`. */
  function ParseField(value: Option<string>): (r: seq<string>)
    ensures AllClean(r)
    ensures value == None || value == Some("") ==> r == []
  {
    match value
    case None => []
    case Some(text) =>
      if text == "" then BlankParsesEmpty(text); ParseList(text) else ParseList(text)
  }

  /** `items.join(", ")`: no items show as empty text and a single item as
      itself. */
  function JoinList(items: seq<string>): (r: string)
    ensures items == [] ==> r == ""
    ensures |items| == 1 ==> r == items[0]
  {
    Join(items, Separator)
  }

  /** The pre-filled text of an optional list: `items?.join(", ") || ""`. */
  function JoinField(items: Option<seq<string>>): (r: string)
    ensures items == None || items == Some([]) ==> r == ""
  {
    match items
    case None => ""
    case Some(xs) => JoinList(xs)
  }

  /** The field text after adding a suggestion: the suggestion alone when
      the field is empty or unset, otherwise the old text, ", ", and the
      suggestion. */
  function AppendSuggestion(current: Option<string>, suggestion: string): (r: string)
    ensures current == None || current == Some("") ==> r == suggestion
    ensures current.Some? ==> current.value <= r
    ensures |suggestion| <= |r| && r[|r| - |suggestion|..] == suggestion
  {
    var text := current.GetOr("");
    if text != "" then text + Separator + suggestion else suggestion
  }

  /** Parsing text with a comma in it parses the two sides separately. */
  lemma ParseAround(a: string, b: string)
    ensures ParseList(a + [','] + b) == ParseList(a) + ParseList(b)
  {
    SplitAround(a, b, ',');
    TidyAppend(Split(a, ','), Split(b, ','));
  }

  /** A leading space does not change what text parses to. */
  lemma ParseLeadingSpace(s: string)
    ensures ParseList([' '] + s) == ParseList(s)
  {
    SplitCons(' ', s, ',');
    TidyExtendSpace(Split(s, ','));
  }

  /** A space put in front of the first piece is trimmed away again. */
  lemma TidyExtendSpace(p: seq<string>)
    requires |p| >= 1
    ensures Tidy(Extend(' ', p)) == Tidy(p)
  {
    var e := Extend(' ', p);
    assert e[0] == [' '] + p[0] && e[1..] == p[1..];
    TrimLeadingSpace(' ', p[0]);
  }

  /** A clean item parses to itself. */
  lemma ParseClean(x: string)
    requires CleanItem(x)
    ensures ParseList(x) == [x]
  {
    TrimOfTrimmed(x);
    SplitNoSep(x, ',');
  }

  /** Round trip: joining clean items with ", " and parsing the text gives
      the same items back, in order. */
  lemma {:induction false} ParseJoin(items: seq<string>)
    requires AllClean(items)
    ensures ParseList(JoinList(items)) == items
    decreases |items|
  {
    if items == [] {
    } else if |items| == 1 {
      ParseClean(items[0]);
    } else {
      var rest := items[1..];
      var tail := JoinList(rest);
      assert JoinList(items) == items[0] + [','] + ([' '] + tail);
      ParseAround(items[0], [' '] + tail);
      ParseLeadingSpace(tail);
      ParseClean(items[0]);
      AllCleanTail(items);
      ParseJoin(rest);
      assert items == [items[0]] + rest;
    }
  }

  /** Dropping the first item keeps a list clean. */
  lemma AllCleanTail(items: seq<string>)
    requires items != [] && AllClean(items)
    ensures AllClean(items[1..])
  {
    forall i | 0 <= i < |items| - 1 ensures CleanItem(items[1..][i]) {
      assert items[1..][i] == items[i + 1];
    }
  }

  /** Pre-filling a list field and submitting it untouched gives back the
      stored list (an unset list comes back empty). */
  lemma FieldRoundTrip(items: Option<seq<string>>)
    requires AllClean(items.GetOr([]))
    ensures ParseField(Some(JoinField(items))) == items.GetOr([])
  {
    if items.Some? {
      ParseJoin(items.value);
    }
  }

  /** Parsing is a normal form: re-showing parsed items and parsing again
      changes nothing. */
  lemma ParseIdempotent(text: string)
    ensures ParseList(JoinList(ParseList(text))) == ParseList(text)
  {
    ParseJoin(ParseList(text));
  }

  /** Adding a clean suggestion to a field appends exactly that item to the
      list the field parses to. */
  lemma AppendParses(current: Option<string>, suggestion: string)
    requires CleanItem(suggestion)
    ensures ParseField(Some(AppendSuggestion(current, suggestion))) == ParseField(current) + [suggestion]
  {
    ParseClean(suggestion);
    var text := current.GetOr("");
    if text != "" {
      assert AppendSuggestion(current, suggestion) == text + [','] + ([' '] + suggestion);
      ParseAround(text, [' '] + suggestion);
      ParseLeadingSpace(suggestion);
    }
  }
}
