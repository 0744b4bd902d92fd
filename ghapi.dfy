/**
 * Response-header parsing: the rate-limit governor and the pagination
 * cursor read from the Link header.
 */
module GhApi {
  import opened Types
  import opened Text

  /** At or below this many remaining calls the client pauses. */
  const RatePauseThreshold: int := 50

  /** http.Header.Get: a missing header reads as the empty string. */
  function HeaderValue(headers: map<string, string>, key: string): string {
    if key in headers then headers[key] else ""
  }

  /** A parsed rate limit together with the pause, in milliseconds, the client takes before returning. */
  datatype Governed = Governed(limit: RateLimit, pauseMs: Option<int>)

  /**
   * ParseRateLimit: convert Limit, then Remaining, then Reset, stopping at the
   * first conversion error; on success pause for Reset milliseconds exactly
   * when Remaining is at most the threshold.
   */
  function ParseRateLimit(headers: map<string, string>): (r: Result<Governed>)
    ensures r.Ok? ==> r.value.limit == RateLimit(
      Atoi(HeaderValue(headers, "X-RateLimit-Limit")).value,
      Atoi(HeaderValue(headers, "X-RateLimit-Remaining")).value,
      Atoi(HeaderValue(headers, "X-RateLimit-Reset")).value)
    ensures r.Ok? ==> (r.value.pauseMs.Some? <==> r.value.limit.remaining <= RatePauseThreshold)
    ensures r.Ok? && r.value.pauseMs.Some? ==> r.value.pauseMs.value == r.value.limit.reset
    ensures r.Ok? <==> (Atoi(HeaderValue(headers, "X-RateLimit-Limit")).err.None?
                        && Atoi(HeaderValue(headers, "X-RateLimit-Remaining")).err.None?
                        && Atoi(HeaderValue(headers, "X-RateLimit-Reset")).err.None?)
    ensures r.Err? ==> (r.error ==
      if Atoi(HeaderValue(headers, "X-RateLimit-Limit")).err.Some?
      then Atoi(HeaderValue(headers, "X-RateLimit-Limit")).err.value
      else if Atoi(HeaderValue(headers, "X-RateLimit-Remaining")).err.Some?
      then Atoi(HeaderValue(headers, "X-RateLimit-Remaining")).err.value
      else Atoi(HeaderValue(headers, "X-RateLimit-Reset")).err.value)
  {
    var lim := Atoi(HeaderValue(headers, "X-RateLimit-Limit"));
    if lim.err.Some? then Err(lim.err.value)
    else
      var rem := Atoi(HeaderValue(headers, "X-RateLimit-Remaining"));
      if rem.err.Some? then Err(rem.err.value)
      else
        var res := Atoi(HeaderValue(headers, "X-RateLimit-Reset"));
        if res.err.Some? then Err(res.err.value)
        else
          var rl := RateLimit(lim.value, rem.value, res.value);
          Ok(Governed(rl, if rl.remaining <= RatePauseThreshold then Some(rl.reset) else None))
  }

  /** Headers written with Itoa are read back unchanged, and the pause follows the remaining quota. */
  lemma RateLimitRoundTrip(headers: map<string, string>, limit: int, remaining: int, reset: int)
    requires MinInt <= limit <= MaxInt && MinInt <= remaining <= MaxInt && MinInt <= reset <= MaxInt
    requires headers == map["X-RateLimit-Limit" := Itoa(limit),
                            "X-RateLimit-Remaining" := Itoa(remaining),
                            "X-RateLimit-Reset" := Itoa(reset)]
    ensures ParseRateLimit(headers) == Ok(Governed(RateLimit(limit, remaining, reset),
                                                   if remaining <= RatePauseThreshold then Some(reset) else None))
  {
    AtoiItoa(limit);
    AtoiItoa(remaining);
    AtoiItoa(reset);
  }

  /** A missing rate-limit header is a syntax error on the empty string, and the first one missing is reported. */
  lemma MissingRateHeaderFails(headers: map<string, string>)
    requires "X-RateLimit-Limit" !in headers
      || ("X-RateLimit-Remaining" !in headers && Atoi(HeaderValue(headers, "X-RateLimit-Limit")).err.None?)
      || ("X-RateLimit-Reset" !in headers && Atoi(HeaderValue(headers, "X-RateLimit-Limit")).err.None?
          && Atoi(HeaderValue(headers, "X-RateLimit-Remaining")).err.None?)
    ensures ParseRateLimit(headers) == Err(Syntax(""))
  {
    AtoiEmpty();
  }

  const PageKey: string := "page="

  /** The first newline at or after k, or the end: `.` in a Go regexp stops at a newline. */
  function LineEnd(s: string, k: nat): (e: nat)
    requires k <= |s|
    ensures k <= e <= |s| && '\n' !in s[k..e] && (e < |s| ==> s[e] == '\n')
    decreases |s| - k
  {
    if k == |s| || s[k] == '\n' then k
    else
      var e := LineEnd(s, k + 1);
      assert s[k..e] == [s[k]] + s[k + 1..e];
      e
  }

  /** The last '>' in s[k..e], if any. */
  function LastClose(s: string, k: nat, e: nat): (r: Option<nat>)
    requires k <= e <= |s|
    ensures r.Some? ==> k <= r.value < e && s[r.value] == '>' && '>' !in s[r.value + 1..e]
    ensures r.None? ==> '>' !in s[k..e]
    decreases e - k
  {
    if e == k then None
    else if s[e - 1] == '>' then Some(e - 1)
    else
      var r := LastClose(s, k, e - 1);
      assert r.Some? ==> s[r.value + 1..e] == s[r.value + 1..e - 1] + [s[e - 1]];
      assert s[k..e] == s[k..e - 1] + [s[e - 1]];
      r
  }

  /** The end of the greedy `.*>` that starts at k, if the line holds a '>'. */
  function CloseFrom(s: string, k: nat): (r: Option<nat>)
    requires k <= |s|
    ensures r.Some? ==> k < r.value <= |s|
  {
    match LastClose(s, k, LineEnd(s, k))
    case None => None
    case Some(j) => Some(j + 1)
  }

  /** The end of the match of `/?page=.*>` that starts at position i, if there is one. */
  function MatchAt(s: string, i: nat): (r: Option<nat>)
    requires i <= |s|
    ensures r.Some? ==> i < r.value <= |s|
  {
    if i < |s| && s[i] == '/' && HasAt(s, i + 1, PageKey) then CloseFrom(s, i + 6)
    else if HasAt(s, i, PageKey) then CloseFrom(s, i + 5)
    else None
  }

  /** regexp.FindString from position i: the leftmost match, or "" when there is none. */
  function FindFrom(s: string, i: nat): string
    requires i <= |s|
    decreases |s| - i
  {
    if i == |s| then ""
    else match MatchAt(s, i)
      case Some(e) => s[i..e]
      case None => FindFrom(s, i + 1)
  }

  /** pageFromLink: find `/?page=.*>`, strip every "page=" and every '>', convert the rest. */
  function PageFromLink(link: string): (r: Conv)
    ensures FindFrom(link, 0) == "" ==> r == Conv(0, Some(Syntax("")))
    ensures r.err.None? ==> MinInt <= r.value <= MaxInt
  {
    Atoi(RemoveAll(RemoveAll(FindFrom(link, 0), PageKey), ">"))
  }

  /** Positions that start no match are skipped by the leftmost search. */
  lemma {:induction false} FindSkips(s: string, i: nat, j: nat)
    requires i <= j <= |s|
    requires forall m :: i <= m < j ==> MatchAt(s, m).None?
    ensures FindFrom(s, i) == FindFrom(s, j)
    decreases j - i
  {
    if i < j {
      FindSkips(s, i + 1, j);
    }
  }

  /** Text without "page=" holds no match. */
  lemma {:induction false} FindNone(s: string, i: nat)
    requires i <= |s|
    requires forall m :: i <= m <= |s| ==> !HasAt(s, m, PageKey)
    ensures FindFrom(s, i) == ""
    decreases |s| - i
  {
    if i < |s| {
      FindNone(s, i + 1);
    }
  }

  /** A part with no "page=" text does not convert: the match is empty. */
  lemma NoPageKeyIsSyntaxError(link: string)
    requires !Contains(link, PageKey)
    ensures PageFromLink(link) == Conv(0, Some(Syntax("")))
  {
    assert forall m :: 0 <= m <= |link| ==> !HasAt(link, m, PageKey);
    FindNone(link, 0);
    AtoiEmpty();
  }

  /** A line without a newline runs to the end of the text. */
  lemma {:induction false} LineEndIsEnd(s: string, k: nat)
    requires k <= |s|
    requires forall x :: k <= x < |s| ==> s[x] != '\n'
    ensures LineEnd(s, k) == |s|
    decreases |s| - k
  {
    if k < |s| {
      LineEndIsEnd(s, k + 1);
    }
  }

  /** The last '>' is found by scanning back from the end. */
  lemma {:induction false} LastCloseIs(s: string, k: nat, e: nat, g: nat)
    requires k <= g < e <= |s|
    requires s[g] == '>' && '>' !in s[g + 1..e]
    ensures LastClose(s, k, e) == Some(g)
    decreases e - g
  {
    if e - 1 != g {
      assert s[e - 1] == s[g + 1..e][e - 1 - (g + 1)];
      assert s[g + 1..e - 1] <= s[g + 1..e];
      LastCloseIs(s, k, e - 1, g);
    }
  }

  /** Positions before a lone "page=" start no match. */
  lemma NoMatchBefore(s: string, p: nat)
    requires p <= |s|
    requires forall i :: 0 <= i < p ==> !HasAt(s, i, PageKey)
    requires p == 0 || s[p - 1] != '/'
    ensures forall m :: 0 <= m < p ==> MatchAt(s, m).None?
  {
    forall m | 0 <= m < p ensures MatchAt(s, m).None? {
      if m + 1 < p {
        assert !HasAt(s, m + 1, PageKey);
      }
    }
  }

  /** A "page=" followed by digits and the line's last '>' matches up to that '>'. */
  lemma MatchAtNumber(s: string, p: nat, g: nat)
    requires p + 5 <= g < |s|
    requires HasAt(s, p, PageKey)
    requires forall x :: p + 5 <= x < g ==> IsDigit(s[x])
    requires s[g] == '>'
    requires forall x :: g < x < |s| ==> s[x] != '>' && s[x] != '\n'
    ensures MatchAt(s, p) == Some(g + 1)
  {
    assert s[p] == s[p..p + 5][0];
    assert forall x :: p + 5 <= x < |s| ==> s[x] != '\n' by {
      forall x | p + 5 <= x < |s| ensures s[x] != '\n' {
        if x < g { assert IsDigit(s[x]); }
      }
    }
    LineEndIsEnd(s, p + 5);
    assert '>' !in s[g + 1..|s|];
    LastCloseIs(s, p + 5, |s|, g);
  }

  /** Where the pieces of `pre + "page=" + d + ">" + post` sit. */
  lemma NumberLayout(link: string, pre: string, d: string, post: string)
    requires link == pre + PageKey + d + ">" + post
    requires AllDigits(d)
    requires '>' !in post && '\n' !in post
    ensures HasAt(link, |pre|, PageKey)
    ensures |pre| > 0 ==> link[|pre| - 1] == pre[|pre| - 1]
    ensures forall x :: |pre| + 5 <= x < |pre| + 5 + |d| ==> IsDigit(link[x])
    ensures link[|pre| + 5 + |d|] == '>'
    ensures forall x :: |pre| + 5 + |d| < x < |link| ==> link[x] != '>' && link[x] != '\n'
    ensures link[|pre|..|pre| + 5 + |d| + 1] == PageKey + d + ">"
  {
    var p := |pre|;
    var g := p + 5 + |d|;
    var tail := d + ">" + post;
    assert link == pre + (PageKey + tail);
    assert link[p..] == PageKey + tail;
    assert link[p..p + 5] == (PageKey + tail)[..5];
    assert link[p + 5..] == tail;
    forall x | p + 5 <= x < g ensures IsDigit(link[x]) {
      assert link[x] == tail[x - p - 5] == d[x - p - 5];
    }
    assert link[g] == tail[|d|] == '>';
    forall x | g < x < |link| ensures link[x] != '>' && link[x] != '\n' {
      assert link[x] == tail[x - p - 5] == post[x - g - 1];
    }
    assert link[p..g + 1] == (PageKey + tail)[..5 + |d| + 1];
    assert (PageKey + tail)[..5 + |d| + 1] == PageKey + d + ">";
  }

  /** The leftmost match in such a part is "page=", the digits and the '>'. */
  lemma MatchOfNumber(link: string, pre: string, d: string, post: string)
    requires link == pre + PageKey + d + ">" + post
    requires AllDigits(d)
    requires pre == [] || pre[|pre| - 1] != '/'
    requires '>' !in post && '\n' !in post
    requires forall i :: HasAt(link, i, PageKey) ==> i == |pre|
    ensures FindFrom(link, 0) == PageKey + d + ">"
  {
    NumberLayout(link, pre, d, post);
    var p := |pre|;
    NoMatchBefore(link, p);
    FindSkips(link, 0, p);
    MatchAtNumber(link, p, p + 5 + |d|);
  }

  /** Stripping "page=" and '>' from the match leaves the digits. */
  lemma StripOfNumber(d: string)
    requires AllDigits(d)
    ensures RemoveAll(RemoveAll(PageKey + d + ">", PageKey), ">") == d
  {
    assert (PageKey + d + ">")[..5] == PageKey;
    assert (PageKey + d + ">")[5..] == d + ">";
    assert 'p' !in d + ">" by {
      forall x | 0 <= x < |d| ensures d[x] != 'p' { assert IsDigit(d[x]); }
    }
    RemoveAllUntouched(d + ">", PageKey);
    RemoveAllCharConcat(d, ">", '>');
    assert '>' !in d by {
      forall x | 0 <= x < |d| ensures d[x] != '>' { assert IsDigit(d[x]); }
    }
    RemoveAllUntouched(d, ">");
    assert RemoveAll(">", ">") == RemoveAll("", ">");
  }

  /**
   * A part of the form `<...page=N>; rel="..."` with a single "page=" (not
   * right after a '/') and no '>' after the number reads as N.
   */
  lemma PageFromLinkReadsNumber(pre: string, n: int, post: string)
    requires 0 <= n <= MaxInt
    requires pre == [] || pre[|pre| - 1] != '/'
    requires '>' !in post && '\n' !in post
    requires forall i :: HasAt(pre + PageKey + Itoa(n) + ">" + post, i, PageKey) ==> i == |pre|
    ensures PageFromLink(pre + PageKey + Itoa(n) + ">" + post) == Conv(n, None)
  {
    MatchOfNumber(pre + PageKey + Itoa(n) + ">" + post, pre, Itoa(n), post);
    StripOfNumber(Itoa(n));
    AtoiItoa(n);
  }

  /** Several `page=<digits>>` pieces written one after the other, on one line. */
  function PageRun(ds: seq<string>): string
    decreases |ds|
  {
    if ds == [] then "" else PageKey + (ds[0] + (">" + PageRun(ds[1..])))
  }

  /** A run of pieces holds no newline, and a non-empty run ends with '>'. */
  lemma {:induction false} PageRunShape(ds: seq<string>)
    requires forall i :: 0 <= i < |ds| ==> AllDigits(ds[i])
    ensures '\n' !in PageRun(ds)
    ensures ds != [] ==> PageRun(ds)[|PageRun(ds)| - 1] == '>'
    decreases |ds|
  {
    if ds != [] {
      PageRunShape(ds[1..]);
      assert '\n' !in ds[0] by {
        forall x | 0 <= x < |ds[0]| ensures ds[0][x] != '\n' { assert IsDigit(ds[0][x]); }
      }
      var tail := PageRun(ds[1..]);
      var end := ">" + tail;
      assert end[|end| - 1] == '>' by {
        if tail != [] {
          assert end[|end| - 1] == tail[|tail| - 1];
        }
      }
      var mid := ds[0] + end;
      assert mid[|mid| - 1] == end[|end| - 1];
      var s := PageKey + mid;
      assert s[|s| - 1] == mid[|mid| - 1];
    }
  }

  /** Stripping "page=" and then '>' from a run of pieces leaves the digits, concatenated. */
  lemma {:induction false} StripRun(ds: seq<string>)
    requires forall i :: 0 <= i < |ds| ==> AllDigits(ds[i])
    ensures RemoveAll(RemoveAll(PageRun(ds), PageKey), ">") == Flatten(ds)
    decreases |ds|
  {
    if ds != [] {
      var d := ds[0];
      var rest := PageRun(ds[1..]);
      StripRun(ds[1..]);
      var body := d + (">" + rest);
      assert PageRun(ds) == PageKey + body;
      assert PageRun(ds)[..5] == PageKey;
      assert PageRun(ds)[5..] == body;
      assert RemoveAll(PageRun(ds), PageKey) == RemoveAll(body, PageKey);
      assert 'p' !in d by {
        forall x | 0 <= x < |d| ensures d[x] != 'p' { assert IsDigit(d[x]); }
      }
      RemoveAllKeepsHead(d, ">" + rest, PageKey);
      RemoveAllKeepsHead(">", rest, PageKey);
      var stripped := RemoveAll(rest, PageKey);
      assert RemoveAll(body, PageKey) == d + (">" + stripped);
      assert '>' !in d by {
        forall x | 0 <= x < |d| ensures d[x] != '>' { assert IsDigit(d[x]); }
      }
      RemoveAllKeepsHead(d, ">" + stripped, ">");
      assert (">" + stripped)[..1] == ">";
      assert (">" + stripped)[1..] == stripped;
      assert RemoveAll(">" + stripped, ">") == RemoveAll(stripped, ">");
    }
  }

  /**
   * Every occurrence of "page=" and of '>' is removed, not just the first:
   * the match of a run of pieces is the whole run, so the pieces' digits
   * are converted as one number.
   */
  lemma EveryOccurrenceStripped(ds: seq<string>)
    requires |ds| >= 1 && forall i :: 0 <= i < |ds| ==> AllDigits(ds[i])
    ensures PageFromLink(PageRun(ds)) == Atoi(Flatten(ds))
  {
    var s := PageRun(ds);
    PageRunShape(ds);
    var tail := ds[0] + (">" + PageRun(ds[1..]));
    assert s == PageKey + tail;
    assert s[..5] == PageKey;
    FindWholeLine(s);
    StripRun(ds);
    assert RemoveAll(RemoveAll(FindFrom(s, 0), PageKey), ">") == Flatten(ds);
  }

  /** A line that starts with "page=" and ends with '>' is matched whole. */
  lemma FindWholeLine(s: string)
    requires |s| > 5 && s[..5] == PageKey && '\n' !in s && s[|s| - 1] == '>'
    ensures FindFrom(s, 0) == s
  {
    forall x | 5 <= x < |s| ensures s[x] != '\n' {
      assert s[x] in s;
    }
    LineEndIsEnd(s, 5);
    LastCloseIs(s, 5, |s|, |s| - 1);
    assert HasAt(s, 0, PageKey);
    assert MatchAt(s, 0) == Some(|s|);
    assert s[0..|s|] == s;
  }

  /** Two links on one line, pages 1 and 2, read as page 12. */
  lemma TwoLinksReadAsTwelve()
    ensures PageFromLink("page=1>page=2>") == Conv(12, None)
  {
    var ds := ["1", "2"];
    assert PageRun(ds[1..][1..]) == "";
    assert PageRun(ds) == "page=1>page=2>";
    assert Flatten(ds[1..][1..]) == "";
    assert Flatten(ds) == "12";
    EveryOccurrenceStripped(ds);
    ItoaTwelve();
    AtoiItoa(12);
  }

  lemma ItoaTwelve()
    ensures Itoa(12) == "12"
  {
    assert NatToDecimal(1) == "1";
    assert NatToDecimal(12) == NatToDecimal(1) + [DigitChar(2)];
  }

  /** The relation a Link header part names; the first of next, prev, last that it contains wins. */
  datatype Rel = Next | Prev | Last | Other

  function RelOf(part: string): (r: Rel)
    ensures r == Other <==>
      !Contains(part, "rel=\"next\"") && !Contains(part, "rel=\"prev\"") && !Contains(part, "rel=\"last\"")
  {
    if Contains(part, "rel=\"next\"") then Next
    else if Contains(part, "rel=\"prev\"") then Prev
    else if Contains(part, "rel=\"last\"") then Last
    else Other
  }

  /** The cursor and the error parseLinks has built so far. */
  datatype LinkScan = LinkScan(pages: ListPages, err: Option<Error>)

  const NoLinks: LinkScan := LinkScan(ListPages(0, 0, 0), None)

  /** One iteration of parseLinks: a recognised part sets its field and replaces the error. */
  function ScanPart(acc: LinkScan, part: string): LinkScan {
    match RelOf(part)
    case Other => acc
    case Next =>
      var c := PageFromLink(part);
      LinkScan(acc.pages.(next := c.value), c.err)
    case Prev =>
      var c := PageFromLink(part);
      LinkScan(acc.pages.(prev := c.value), c.err)
    case Last =>
      var c := PageFromLink(part);
      LinkScan(acc.pages.(last := c.value), c.err)
  }

  /** parseLinks over the given parts, in order. */
  function ScanParts(parts: seq<string>): LinkScan
    decreases |parts|
  {
    if parts == [] then NoLinks
    else ScanPart(ScanParts(parts[..|parts| - 1]), parts[|parts| - 1])
  }

  /** parseLinks: the Link header split on ',' and scanned part by part. */
  function LinksOf(links: string): (r: LinkScan)
    ensures var parts := Split(links, ',');
      r.pages == ListPages(LastPage(parts, Prev), LastPage(parts, Next), LastPage(parts, Last))
    ensures var parts := Split(links, ',');
      r.err == match LastWhere(parts, {Next, Prev, Last})
               case None => None
               case Some(j) => PageFromLink(parts[j]).err
  {
    ScanIsLast(Split(links, ','));
    ScanParts(Split(links, ','))
  }

  /** parseLinks as the source writes it: a loop over the parts. */
  method ParseLinks(links: string) returns (lp: ListPages, err: Option<Error>)
    ensures LinkScan(lp, err) == LinksOf(links)
  {
    var parts := Split(links, ',');
    lp, err := ListPages(0, 0, 0), None;
    for i := 0 to |parts|
      invariant LinkScan(lp, err) == ScanParts(parts[..i])
    {
      assert parts[..i + 1][..i] == parts[..i];
      var v := parts[i];
      if Contains(v, "rel=\"next\"") {
        var c := PageFromLink(v);
        lp, err := lp.(next := c.value), c.err;
      } else if Contains(v, "rel=\"prev\"") {
        var c := PageFromLink(v);
        lp, err := lp.(prev := c.value), c.err;
      } else if Contains(v, "rel=\"last\"") {
        var c := PageFromLink(v);
        lp, err := lp.(last := c.value), c.err;
      }
    }
    assert parts[..|parts|] == parts;
  }

  /** The last index of a part whose relation is one of `rels`. */
  function LastWhere(parts: seq<string>, rels: set<Rel>): (r: Option<nat>)
    ensures r.Some? ==> r.value < |parts| && RelOf(parts[r.value]) in rels
    ensures r.Some? ==> forall k :: r.value < k < |parts| ==> RelOf(parts[k]) !in rels
    ensures r.None? ==> forall k :: 0 <= k < |parts| ==> RelOf(parts[k]) !in rels
    decreases |parts|
  {
    if parts == [] then None
    else if RelOf(parts[|parts| - 1]) in rels then Some(|parts| - 1)
    else LastWhere(parts[..|parts| - 1], rels)
  }

  /** The page number the last part of a relation carries, or 0 when no part has it. */
  function LastPage(parts: seq<string>, rel: Rel): int {
    match LastWhere(parts, {rel})
    case None => 0
    case Some(j) => PageFromLink(parts[j]).value
  }

  /**
   * Each field of the cursor comes from the last part of its relation, and
   * the error is that of the last recognised part: an earlier failure is
   * forgotten once a later part converts.
   */
  lemma {:induction false} ScanIsLast(parts: seq<string>)
    ensures ScanParts(parts).pages == ListPages(LastPage(parts, Prev), LastPage(parts, Next), LastPage(parts, Last))
    ensures ScanParts(parts).err ==
      match LastWhere(parts, {Next, Prev, Last})
      case None => None
      case Some(j) => PageFromLink(parts[j]).err
    decreases |parts|
  {
    if parts != [] {
      var init := parts[..|parts| - 1];
      var last := parts[|parts| - 1];
      ScanIsLast(init);
      assert ScanParts(parts) == ScanPart(ScanParts(init), last);
      var rel := RelOf(last);
      LastWhereStep(parts, {Prev}, rel in {Prev});
      LastWhereStep(parts, {Next}, rel in {Next});
      LastWhereStep(parts, {Last}, rel in {Last});
      LastWhereStep(parts, {Next, Prev, Last}, rel != Other);
    }
  }

  /** LastWhere looks at the last part first. */
  lemma LastWhereStep(parts: seq<string>, rels: set<Rel>, hit: bool)
    requires parts != [] && hit == (RelOf(parts[|parts| - 1]) in rels)
    ensures hit ==> LastWhere(parts, rels) == Some(|parts| - 1)
    ensures !hit ==> LastWhere(parts, rels) == LastWhere(parts[..|parts| - 1], rels)
  {
  }

  /** An absent Link header leaves the cursor at zero with no error. */
  lemma EmptyLinkHeader()
    ensures LinksOf("") == NoLinks
  {
    assert !Contains("", "rel=\"next\"");
    assert !Contains("", "rel=\"prev\"");
    assert !Contains("", "rel=\"last\"");
    assert Split("", ',') == [""];
  }
}
