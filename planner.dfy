/**
 The unit planner: the first half of `download_internal`. The raw text of the
 input box is split on single spaces, blank tokens are dropped, and every
 remaining link contributes units to the aggregate progress bar's maximum:
 one for a plain link, the number of available entries for a playlist link
 (one containing "?list="). A format string containing "+" asks the engine
 for two downloads per item, so the sum is doubled.
 */
module Planner {
  import opened Engine
  import opened Text

  /** The planner either yields a unit count or fails with the exception of
      the playlist enumeration, identified here by the link that raised it. */
  datatype Result<+T> = Ok(value: T) | Err(link: string)

  predicate IsPlaylist(link: string) {
    Contains(link, "?list=")
  }

  predicate IsDualStream(quality: string) {
    Contains(quality, "+")
  }

  /** `link.strip() == ""` */
  predicate IsBlank(token: string) {
    Strip(token) == ""
  }

  // ---------------------------------------------------------------------
  // list_links

  /** `[link for link in tokens if link.strip() != ""]` */
  function KeepNonBlank(tokens: seq<string>): (r: seq<string>)
    ensures |r| <= |tokens|
    ensures forall t :: t in r <==> t in tokens && !IsBlank(t)
  {
    if tokens == [] then []
    else (if IsBlank(tokens[0]) then [] else [tokens[0]]) + KeepNonBlank(tokens[1..])
  }

  /** The filter keeps order: filtering a concatenation filters each part
      (with the one-token case in its body, this determines the filter). */
  lemma {:induction false} KeepNonBlankAppend(a: seq<string>, b: seq<string>)
    ensures KeepNonBlank(a + b) == KeepNonBlank(a) + KeepNonBlank(b)
  {
    if a != [] {
      var head := if IsBlank(a[0]) then [] else [a[0]];
      assert (a + b)[0] == a[0] && (a + b)[1..] == a[1..] + b;
      assert KeepNonBlank(a + b) == head + KeepNonBlank(a[1..] + b);
      KeepNonBlankAppend(a[1..], b);
      assert KeepNonBlank(a) == head + KeepNonBlank(a[1..]);
    } else {
      assert a + b == b;
    }
  }

  /** `list_links` as computed from the raw input text. */
  function Links(text: string): seq<string> {
    KeepNonBlank(Split(text))
  }

  /** Every kept link is a space-free, non-blank piece of the input. */
  lemma LinksAreTokens(text: string)
    ensures forall l :: l in Links(text) ==> l in Split(text) && ' ' !in l && !IsBlank(l)
  {
  }

  /** No link at all exactly when the input is whitespace only (the empty
      input included). */
  lemma LinksEmptyIff(text: string)
    ensures Links(text) == [] <==> AllSpace(text)
  {
    var pieces := Split(text);
    JoinAllSpace(pieces);
    forall i | 0 <= i < |pieces| ensures IsBlank(pieces[i]) <==> AllSpace(pieces[i]) {
      StripEmptyIff(pieces[i]);
    }
    if Links(text) != [] {
      var l := Links(text)[0];
      assert l in Links(text);
      var i :| 0 <= i < |pieces| && pieces[i] == l;
      assert !AllSpace(pieces[i]);
    }
  }

  // ---------------------------------------------------------------------
  // Counting

  /** `sum([1 for video in entries if video is not None])` */
  function CountAvailable(entries: seq<Option<Entry>>): (r: nat)
    ensures r <= |entries|
    ensures r == |entries| <==> forall i :: 0 <= i < |entries| ==> entries[i].Some?
  {
    if entries == [] then 0
    else (if entries[0].Some? then 1 else 0) + CountAvailable(entries[1..])
  }

  /** The count is the number of entries that are not `None`. */
  lemma {:induction false} CountAvailableIsNotNone(entries: seq<Option<Entry>>)
    ensures CountAvailable(entries) == |entries| - multiset(entries)[None]
  {
    if entries != [] {
      CountAvailableIsNotNone(entries[1..]);
      assert entries == [entries[0]] + entries[1..];
      assert multiset(entries) == multiset([entries[0]]) + multiset(entries[1..]);
    }
  }

  /** Counting distributes over concatenation of entry lists. */
  lemma {:induction false} CountAvailableAppend(a: seq<Option<Entry>>, b: seq<Option<Entry>>)
    ensures CountAvailable(a + b) == CountAvailable(a) + CountAvailable(b)
  {
    if a != [] {
      assert (a + b)[1..] == a[1..] + b;
      CountAvailableAppend(a[1..], b);
    } else {
      assert a + b == b;
    }
  }

  /** The enumeration of this link is attempted and raises. */
  predicate EnumerationFails(link: string, enumerate: string -> Enumeration) {
    IsPlaylist(link) && enumerate(link).Failed?
  }

  /** What one link adds to `total_videos` (one pass of the loop body). */
  function LinkUnits(link: string, enumerate: string -> Enumeration): Result<nat> {
    if IsPlaylist(link) then
      match enumerate(link)
      case Failed => Err(link)
      case Entries(entries) => Ok(CountAvailable(entries))
    else Ok(1)
  }

  /** `total_videos` after the loop has visited `links` in order; the first
      enumeration that raises ends the loop. */
  function TotalUnits(links: seq<string>, enumerate: string -> Enumeration): Result<nat> {
    if links == [] then Ok(0)
    else
      match TotalUnits(links[..|links| - 1], enumerate)
      case Err(l) => Err(l)
      case Ok(n) =>
        match LinkUnits(links[|links| - 1], enumerate)
        case Err(l) => Err(l)
        case Ok(u) => Ok(n + u)
  }

  /** Number of links without the playlist marker. */
  function CountSingles(links: seq<string>): nat {
    if links == [] then 0
    else (if IsPlaylist(links[0]) then 0 else 1) + CountSingles(links[1..])
  }

  /** Sum of the available entries over the playlist links (a failed
      enumeration contributes nothing). */
  function PlaylistEntries(links: seq<string>, enumerate: string -> Enumeration): nat {
    if links == [] then 0
    else
      (if IsPlaylist(links[0]) && enumerate(links[0]).Entries? then CountAvailable(enumerate(links[0]).entries) else 0)
      + PlaylistEntries(links[1..], enumerate)
  }

  lemma {:induction false} CountsAppend(a: seq<string>, b: seq<string>, enumerate: string -> Enumeration)
    ensures CountSingles(a + b) == CountSingles(a) + CountSingles(b)
    ensures PlaylistEntries(a + b, enumerate) == PlaylistEntries(a, enumerate) + PlaylistEntries(b, enumerate)
  {
    if a != [] {
      assert (a + b)[1..] == a[1..] + b;
      CountsAppend(a[1..], b, enumerate);
    } else {
      assert a + b == b;
    }
  }

  /** `k` is the first link whose enumeration raises. */
  predicate FirstFailure(links: seq<string>, enumerate: string -> Enumeration, k: int) {
    0 <= k < |links| && EnumerationFails(links[k], enumerate) &&
    forall j :: 0 <= j < k ==> !EnumerationFails(links[j], enumerate)
  }

  /** The loop's total: when no enumeration raises, the plain links plus the
      available playlist entries; otherwise the exception of the first
      playlist that fails. */
  lemma {:induction false} TotalUnitsMeaning(links: seq<string>, enumerate: string -> Enumeration)
    ensures TotalUnits(links, enumerate).Ok? <==> forall i :: 0 <= i < |links| ==> !EnumerationFails(links[i], enumerate)
    ensures TotalUnits(links, enumerate).Ok? ==>
      TotalUnits(links, enumerate).value == CountSingles(links) + PlaylistEntries(links, enumerate)
    ensures TotalUnits(links, enumerate).Err? ==>
      exists k :: FirstFailure(links, enumerate, k) && TotalUnits(links, enumerate).link == links[k]
  {
    if links != [] {
      var n := |links| - 1;
      var init, last := links[..n], links[n];
      assert links == init + [last];
      TotalUnitsMeaning(init, enumerate);
      CountsAppend(init, [last], enumerate);
      assert [last][1..] == [];
      forall i | 0 <= i < n ensures init[i] == links[i] { }
      match TotalUnits(init, enumerate)
      case Err(l) => {
        var k :| FirstFailure(init, enumerate, k) && l == init[k];
        assert FirstFailure(links, enumerate, k);
      }
      case Ok(_) => {
        if EnumerationFails(last, enumerate) {
          assert FirstFailure(links, enumerate, n);
        }
      }
    }
  }

  /** Once the loop has raised, later links change nothing. */
  lemma {:induction false} FailureIsFinal(links: seq<string>, enumerate: string -> Enumeration, k: nat)
    requires k <= |links|
    requires TotalUnits(links[..k], enumerate).Err?
    ensures TotalUnits(links, enumerate) == TotalUnits(links[..k], enumerate)
    decreases |links|
  {
    if k < |links| {
      var init := links[..|links| - 1];
      assert init[..k] == links[..k];
      FailureIsFinal(init, enumerate, k);
    } else {
      assert links[..k] == links;
    }
  }

  // ---------------------------------------------------------------------
  // The planner

  /** The planned number of units for the input text and format string. */
  function Plan(text: string, quality: string, enumerate: string -> Enumeration): Result<nat> {
    match TotalUnits(Links(text), enumerate)
    case Err(l) => Err(l)
    case Ok(n) => Ok(if IsDualStream(quality) then n * 2 else n)
  }

  /** One more pass of the loop. */
  lemma TotalUnitsStep(links: seq<string>, enumerate: string -> Enumeration, i: nat, n: nat)
    requires i < |links| && TotalUnits(links[..i], enumerate) == Ok(n)
    ensures !IsPlaylist(links[i]) ==> TotalUnits(links[..i + 1], enumerate) == Ok(n + 1)
    ensures IsPlaylist(links[i]) && enumerate(links[i]).Failed? ==>
      TotalUnits(links[..i + 1], enumerate) == Err(links[i])
    ensures IsPlaylist(links[i]) && enumerate(links[i]).Entries? ==>
      TotalUnits(links[..i + 1], enumerate) == Ok(n + CountAvailable(enumerate(links[i]).entries))
  {
    assert links[..i + 1][..i] == links[..i];
  }

  /** The plan once the loop has finished with `total`. */
  lemma PlanOfTotal(text: string, quality: string, enumerate: string -> Enumeration, total: nat)
    requires TotalUnits(Links(text), enumerate) == Ok(total)
    ensures Plan(text, quality, enumerate) == Ok(if IsDualStream(quality) then total * 2 else total)
  {
  }

  /** Lines 64-72 of `download_internal`: the counting loop over `list_links`. */
  method CountUnits(links: seq<string>, enumerate: string -> Enumeration) returns (r: Result<nat>)
    ensures r == TotalUnits(links, enumerate)
  {
    var total := 0;
    for i := 0 to |links|
      invariant TotalUnits(links[..i], enumerate) == Ok(total)
    {
      var link := links[i];
      TotalUnitsStep(links, enumerate, i, total);
      if IsPlaylist(link) {
        match enumerate(link)
        case Failed =>
          FailureIsFinal(links, enumerate, i + 1);
          return Err(link);
        case Entries(entries) =>
          total := total + CountAvailable(entries);
      } else {
        total := total + 1;
      }
    }
    assert links[..|links|] == links;
    return Ok(total);
  }

  /** Lines 62-77 of `download_internal`: split, filter, count then double. */
  method PlanUnits(text: string, quality: string, enumerate: string -> Enumeration) returns (r: Result<nat>)
    ensures r == Plan(text, quality, enumerate)
  {
    var links := Links(text);
    r := CountUnits(links, enumerate);
    if r.Err? {
      return;
    }
    var total := r.value;
    PlanOfTotal(text, quality, enumerate, total);
    if IsDualStream(quality) {
      total := total * 2;
    }
    return Ok(total);
  }

  /** What the plan is: plain links plus available playlist entries, doubled
      for a two-stream format and then even; the first failing playlist
      enumeration otherwise. */
  lemma PlanMeaning(text: string, quality: string, enumerate: string -> Enumeration)
    ensures Plan(text, quality, enumerate).Ok? <==>
      forall i :: 0 <= i < |Links(text)| ==> !EnumerationFails(Links(text)[i], enumerate)
    ensures Plan(text, quality, enumerate).Ok? ==>
      var base := CountSingles(Links(text)) + PlaylistEntries(Links(text), enumerate);
      Plan(text, quality, enumerate).value == (if IsDualStream(quality) then 2 * base else base)
    ensures Plan(text, quality, enumerate).Ok? && IsDualStream(quality) ==> Plan(text, quality, enumerate).value % 2 == 0
    ensures Plan(text, quality, enumerate).Err? ==>
      exists k :: FirstFailure(Links(text), enumerate, k) && Plan(text, quality, enumerate).link == Links(text)[k]
  {
    var links := Links(text);
    TotalUnitsMeaning(links, enumerate);
    match TotalUnits(links, enumerate)
    case Err(_) =>
    case Ok(n) => DoubleIsEven(n);
  }

  /** Doubling gives an even number. */
  lemma DoubleIsEven(n: nat)
    ensures (n * 2) % 2 == 0 && 2 * n == n * 2
  {
  }

  /** An empty or whitespace-only input is not special-cased: it plans 0. */
  lemma BlankInputPlansZero(text: string, quality: string, enumerate: string -> Enumeration)
    requires AllSpace(text)
    ensures Plan(text, quality, enumerate) == Ok(0)
  {
    LinksEmptyIff(text);
  }

  // ---------------------------------------------------------------------
  // The quality menu

  /** The four entries of the quality menu. */
  datatype Quality = BestQuality | DefaultQuality | AudioOnly | VideoOnly

  /** The format string each menu entry passes to the engine. */
  function Format(q: Quality): string {
    match q
    case BestQuality => "bestvideo+bestaudio"
    case DefaultQuality => "best"
    case AudioOnly => "bestaudio"
    case VideoOnly => "bestvideo"
  }

  /** Only "Best quality" makes the planner double. */
  lemma DualStreamIffBest(q: Quality)
    ensures IsDualStream(Format(q)) <==> q == BestQuality
  {
    ContainsChar(Format(q), '+');
  }
}
