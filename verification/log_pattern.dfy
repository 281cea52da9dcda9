/**
 * The access-log line parser: a hand-coded equivalent of searching a line
 * for the pattern  pool="([^"]*)".*upstream_status="([^"]*)"  and turning
 * the two captured groups into a pool label and an integer status.
 *
 * Regular-expression semantics being modelled: the search tries start
 * positions from the left and takes the first one where the whole pattern
 * matches; `[^"]*` runs to the next quote (it may cross a newline); the
 * greedy `.*` never crosses a newline and, backtracking from the right,
 * settles on the LAST `upstream_status="..."` token it can reach.
 */
module LogPattern {
  import opened Wrappers
  import StatusField

  const PoolKey: string := "pool=\""
  const StatusKey: string := "upstream_status=\""

  /** One parsed request: the upstream pool label and its status. */
  datatype LogEvent = LogEvent(pool: string, status: int)

  /** Where a match was found: the start of the pool token and of the status token. */
  datatype Hit = Hit(poolAt: nat, statusAt: nat)

  predicate TokenAt(s: string, key: string, i: nat) {
    i + |key| <= |s| && s[i..i + |key|] == key
  }

  /** The first index at or after `i` holding `c`, or `|s|` when there is none. */
  function IndexFrom(s: string, c: char, i: nat): (r: nat)
    requires i <= |s|
    ensures i <= r <= |s|
    ensures r < |s| ==> s[r] == c
    ensures forall t :: i <= t < r ==> s[t] != c
    decreases |s| - i
  {
    if i == |s| || s[i] == c then i else IndexFrom(s, c, i + 1)
  }

  predicate NoNewline(s: string, i: nat, j: nat) {
    j <= |s| && forall t :: i <= t < j ==> s[t] != '\n'
  }

  /** `upstream_status="` starts at `k` and its value is closed by a quote. */
  predicate StatusTokenAt(s: string, k: nat) {
    TokenAt(s, StatusKey, k) && IndexFrom(s, '"', k + |StatusKey|) < |s|
  }

  /** The end of the pool value that starts at `p`: its closing quote, or |s|. */
  function PoolEnd(s: string, p: nat): nat
    requires TokenAt(s, PoolKey, p)
  {
    IndexFrom(s, '"', p + |PoolKey|)
  }

  /**
   * The whole pattern matches with the pool token at `p` and the status
   * token at `k`: the pool value is closed by a quote, and the text between
   * that quote and `k` holds no newline.
   */
  predicate MatchAt(s: string, p: nat, k: nat) {
    TokenAt(s, PoolKey, p) && PoolEnd(s, p) < k &&
    StatusTokenAt(s, k) && NoNewline(s, PoolEnd(s, p) + 1, k)
  }

  /** The pattern matches nowhere in `s`. */
  ghost predicate NoMatch(s: string) {
    forall p: nat, k: nat :: !MatchAt(s, p, k)
  }

  /** No match starts at position `p`. */
  ghost predicate NoMatchAt(s: string, p: nat) {
    forall k: nat :: !MatchAt(s, p, k)
  }

  /** No start position in `[lo, hi)` begins a match. */
  ghost predicate NoMatchIn(s: string, lo: nat, hi: nat) {
    forall p: nat, k: nat :: lo <= p < hi ==> !MatchAt(s, p, k)
  }

  /** No start position at or after `lo` begins a match. */
  ghost predicate NoMatchFrom(s: string, lo: nat) {
    forall p: nat, k: nat :: lo <= p ==> !MatchAt(s, p, k)
  }

  /** The pattern matches with the pool token at `p` and `k` is the last status token it can pair with. */
  ghost predicate LastMatchFor(s: string, p: nat, k: nat) {
    MatchAt(s, p, k) && forall k': nat :: k < k' ==> !MatchAt(s, p, k')
  }

  /** The match the regular-expression search reports: leftmost start, then the rightmost status token. */
  ghost predicate IsSearchResult(s: string, h: Hit) {
    LastMatchFor(s, h.poolAt, h.statusAt) && NoMatchIn(s, 0, h.poolAt)
  }

  /** The largest `k` in `[lo, hi)` where a status token starts, if any. */
  function LastStatusToken(s: string, lo: nat, hi: nat): (r: Option<nat>)
    ensures r.Some? ==> lo <= r.value < hi && StatusTokenAt(s, r.value)
    ensures r.Some? ==> forall k: nat :: r.value < k < hi ==> !StatusTokenAt(s, k)
    ensures r.None? ==> forall k: nat :: lo <= k < hi ==> !StatusTokenAt(s, k)
    decreases hi
  {
    if hi <= lo then None
    else if StatusTokenAt(s, hi - 1) then Some(hi - 1)
    else LastStatusToken(s, lo, hi - 1)
  }

  /** For a newline-free stretch from `i`: `NoNewline(s, i, k)` holds exactly up to the first newline. */
  lemma NoNewlineUpTo(s: string, i: nat, k: nat)
    requires i <= k <= |s|
    ensures NoNewline(s, i, k) <==> k <= IndexFrom(s, '\n', i)
  {
    var nl := IndexFrom(s, '\n', i);
    if k > nl {
      assert s[nl] == '\n';
    }
  }

  /** The status token the pattern pairs with a pool token at `p`, if any. */
  function StatusFor(s: string, p: nat): (r: Option<nat>)
    ensures r.Some? ==> LastMatchFor(s, p, r.value)
    ensures r.None? ==> NoMatchAt(s, p)
  {
    if !TokenAt(s, PoolKey, p) then None
    else
      var q := PoolEnd(s, p);
      if q == |s| then None
      else
        var nl := IndexFrom(s, '\n', q + 1);
        var r := LastStatusToken(s, q + 1, nl + 1);
        assert forall k: nat :: MatchAt(s, p, k) <==> q + 1 <= k < nl + 1 && StatusTokenAt(s, k) by {
          forall k: nat ensures MatchAt(s, p, k) <==> q + 1 <= k < nl + 1 && StatusTokenAt(s, k) {
            if q + 1 <= k <= |s| {
              NoNewlineUpTo(s, q + 1, k);
            }
          }
        }
        r
  }

  /** The search from start position `p` onwards. */
  function SearchFrom(s: string, p: nat): (r: Option<Hit>)
    requires p <= |s|
    ensures r.Some? ==> p <= r.value.poolAt && LastMatchFor(s, r.value.poolAt, r.value.statusAt)
    decreases |s| - p
  {
    if p == |s| then None
    else
      match StatusFor(s, p)
      case Some(k) => Some(Hit(p, k))
      case None => SearchFrom(s, p + 1)
  }

  /** A match needs room for the pool token, so none starts at the end of the line. */
  lemma NoMatchAtEnd(s: string)
    ensures NoMatchFrom(s, |s|)
  {
    forall q: nat, k: nat | |s| <= q ensures !MatchAt(s, q, k) {
      assert !TokenAt(s, PoolKey, q);
    }
  }

  lemma NoMatchInExtend(s: string, p: nat, hi: nat)
    requires NoMatchAt(s, p) && NoMatchIn(s, p + 1, hi)
    ensures NoMatchIn(s, p, hi)
  {
    forall q: nat, k: nat | p <= q < hi ensures !MatchAt(s, q, k) {
      if q == p {
        assert NoMatchAt(s, p);
      } else {
        assert p + 1 <= q < hi;
      }
    }
  }

  lemma NoMatchFromExtend(s: string, p: nat)
    requires NoMatchAt(s, p) && NoMatchFrom(s, p + 1)
    ensures NoMatchFrom(s, p)
  {
    forall q: nat, k: nat | p <= q ensures !MatchAt(s, q, k) {
      if q == p {
        assert NoMatchAt(s, p);
      } else {
        assert p + 1 <= q;
      }
    }
  }

  /** The search from `p` reports the leftmost start position at or after `p` that begins a match. */
  lemma {:induction false} SearchFromIsLeftmost(s: string, p: nat)
    requires p <= |s|
    ensures var r := SearchFrom(s, p);
      (r.Some? ==> NoMatchIn(s, p, r.value.poolAt)) && (r.None? ==> NoMatchFrom(s, p))
    decreases |s| - p
  {
    if p == |s| {
      NoMatchAtEnd(s);
    } else if StatusFor(s, p).None? {
      SearchFromIsLeftmost(s, p + 1);
      var r := SearchFrom(s, p + 1);
      if r.Some? {
        NoMatchInExtend(s, p, r.value.poolAt);
      } else {
        NoMatchFromExtend(s, p);
      }
    }
  }

  /** `LOG_PATTERN.search(s)`. */
  function Search(s: string): (r: Option<Hit>)
    ensures r.Some? ==> IsSearchResult(s, r.value)
    ensures r.None? <==> NoMatch(s)
  {
    SearchFromIsLeftmost(s, 0);
    SearchFrom(s, 0)
  }

  /** Two hits that both satisfy the search's leftmost-then-rightmost rule are the same. */
  lemma SearchResultUnique(s: string, h1: Hit, h2: Hit)
    requires IsSearchResult(s, h1) && IsSearchResult(s, h2)
    ensures h1 == h2
  {
  }

  /** Group 1: the pool label. */
  function PoolValue(s: string, h: Hit): string
    requires MatchAt(s, h.poolAt, h.statusAt)
  {
    s[h.poolAt + |PoolKey|..PoolEnd(s, h.poolAt)]
  }

  /** Group 2: the raw upstream status list. */
  function StatusValue(s: string, h: Hit): string
    requires MatchAt(s, h.poolAt, h.statusAt)
  {
    s[h.statusAt + |StatusKey|..IndexFrom(s, '"', h.statusAt + |StatusKey|)]
  }

  function EventOf(s: string, h: Hit): LogEvent
    requires MatchAt(s, h.poolAt, h.statusAt)
  {
    LogEvent(PoolValue(s, h), StatusField.ParseStatus(StatusValue(s, h)))
  }

  /** Group 1 never holds a quote: it runs up to the first one. */
  lemma PoolValueHasNoQuote(s: string, h: Hit)
    requires MatchAt(s, h.poolAt, h.statusAt)
    ensures '"' !in PoolValue(s, h)
  {
    var v := PoolValue(s, h);
    forall i | 0 <= i < |v| ensures v[i] != '"' {
      assert v[i] == s[h.poolAt + |PoolKey| + i];
    }
  }

  /**
   * One log line to an event, or None for a line the pattern does not match
   * (such a line is skipped by the caller).
   */
  function ParseLine(line: string): (r: Option<LogEvent>)
    ensures r.None? <==> NoMatch(line)
    ensures r.Some? ==> '"' !in r.value.pool
  {
    match Search(line)
    case None => None
    case Some(h) =>
      PoolValueHasNoQuote(line, h);
      Some(EventOf(line, h))
  }

  /** Whenever a hit satisfies the search's leftmost-then-rightmost rule, the parsed event is that hit's groups. */
  lemma ParseLineReportsSearchResult(line: string, h: Hit)
    requires IsSearchResult(line, h)
    ensures ParseLine(line) == Some(EventOf(line, h))
  {
    var found := Search(line);
    assert found.Some?;
    SearchResultUnique(line, found.value, h);
  }

  // ---------------------------------------------------------------------
  // The two fields as nginx writes them, and what the parser reads back.

  /** The text  pool="<pool>" upstream_status="<statuses>"  with one space between the fields. */
  function FieldsLine(pool: string, statuses: string): string {
    PoolKey + pool + "\" " + StatusKey + statuses + "\""
  }

  lemma FieldsLineShape(pool: string, statuses: string)
    ensures var line := FieldsLine(pool, statuses);
      var k := |pool| + 8;
      |line| == k + |StatusKey| + |statuses| + 1 &&
      line[..|PoolKey|] == PoolKey && line[|PoolKey|..|PoolKey| + |pool|] == pool &&
      line[|PoolKey| + |pool|] == '"' && line[|PoolKey| + |pool| + 1] == ' ' &&
      line[k..k + |StatusKey|] == StatusKey &&
      line[k + |StatusKey|..|line| - 1] == statuses && line[|line| - 1] == '"'
  {
  }

  /** With quote-free values, the quotes that end the two values are where the pattern expects them. */
  lemma FieldsLineQuotes(pool: string, statuses: string)
    requires '"' !in pool && '"' !in statuses
    ensures var line := FieldsLine(pool, statuses);
      PoolEnd(line, 0) == |PoolKey| + |pool| &&
      IndexFrom(line, '"', |pool| + 8 + |StatusKey|) == |line| - 1
  {
    var line := FieldsLine(pool, statuses);
    var k := |pool| + 8;
    FieldsLineShape(pool, statuses);
    var b := |PoolKey|;
    var v := k + |StatusKey|;
    assert forall t :: b <= t < b + |pool| ==> line[t] != '"' by {
      forall t | b <= t < b + |pool| ensures line[t] != '"' {
        assert line[t] == line[b..b + |pool|][t - b] == pool[t - b];
      }
    }
    assert forall t :: v <= t < |line| - 1 ==> line[t] != '"' by {
      forall t | v <= t < |line| - 1 ensures line[t] != '"' {
        assert line[t] == line[v..|line| - 1][t - v] == statuses[t - v];
      }
    }
    assert TokenAt(line, PoolKey, 0);
  }

  /** With a quote-free status list, no status token starts after the one that heads it. */
  lemma FieldsLineOneStatusToken(pool: string, statuses: string)
    requires '"' !in pool && '"' !in statuses
    ensures var line := FieldsLine(pool, statuses);
      forall k': nat :: |pool| + 8 < k' ==> !StatusTokenAt(line, k')
  {
    var line := FieldsLine(pool, statuses);
    var k := |pool| + 8;
    FieldsLineShape(pool, statuses);
    var v := k + |StatusKey|;
    assert forall t :: v <= t < |line| - 1 ==> line[t] != '"' by {
      forall t | v <= t < |line| - 1 ensures line[t] != '"' {
        assert line[t] == line[v..|line| - 1][t - v] == statuses[t - v];
      }
    }
    forall k': nat | k < k' ensures !StatusTokenAt(line, k') {
      if TokenAt(line, StatusKey, k') {
        var c := k' + |StatusKey| - 1;
        assert line[c] == '"' by {
          assert line[k'..k' + |StatusKey|][|StatusKey| - 1] == line[c];
        }
        assert c == |line| - 1;
        assert IndexFrom(line, '"', k' + |StatusKey|) == |line|;
      }
    }
  }

  /** The search finds the pool token at 0 paired with the status token right after the pool value. */
  lemma FieldsLineHit(pool: string, statuses: string)
    requires '"' !in pool && '"' !in statuses
    ensures var line := FieldsLine(pool, statuses);
      var h := Hit(0, |pool| + 8);
      IsSearchResult(line, h) && PoolValue(line, h) == pool && StatusValue(line, h) == statuses
  {
    var line := FieldsLine(pool, statuses);
    FieldsLineShape(pool, statuses);
    FieldsLineQuotes(pool, statuses);
    FieldsLineOneStatusToken(pool, statuses);
    assert NoNewline(line, |PoolKey| + |pool| + 1, |pool| + 8);
    assert MatchAt(line, 0, |pool| + 8);
  }

  /** A line holding just the two fields, with quote-free values, parses to its pool and the status of its list. */
  lemma FieldsLineParses(pool: string, statuses: string)
    requires '"' !in pool && '"' !in statuses
    ensures ParseLine(FieldsLine(pool, statuses)) == Some(LogEvent(pool, StatusField.ParseStatus(statuses)))
  {
    FieldsLineHit(pool, statuses);
    ParseLineReportsSearchResult(FieldsLine(pool, statuses), Hit(0, |pool| + 8));
  }

  /**
   * When several upstreams were tried, the line yields the pool and the
   * status of the last one, whatever statuses precede it.
   */
  lemma UpstreamListLineParses(pool: string, prefix: string, lead: string, n: int, trail: string)
    requires '"' !in pool && '"' !in prefix
    requires StatusField.AllSpace(lead) && StatusField.AllSpace(trail)
    requires ',' !in lead && ',' !in trail
    ensures ParseLine(FieldsLine(pool, prefix + "," + lead + StatusField.Decimal(n) + trail)) == Some(LogEvent(pool, n))
  {
    var statuses := prefix + "," + lead + StatusField.Decimal(n) + trail;
    assert '"' !in statuses by {
      var d := StatusField.Decimal(n);
      forall i | 0 <= i < |statuses| ensures statuses[i] != '"' {
        var a := |prefix| + 1;
        if i < |prefix| { assert statuses[i] == prefix[i]; }
        else if i < a { assert statuses[i] == ','; }
        else if i < a + |lead| { assert statuses[i] == lead[i - a]; }
        else if i < a + |lead| + |d| { assert statuses[i] == d[i - a - |lead|]; }
        else { assert statuses[i] == trail[i - a - |lead| - |d|]; }
      }
    }
    FieldsLineParses(pool, statuses);
    StatusField.ParseStatusOfList(prefix, lead, n, trail);
  }
}
