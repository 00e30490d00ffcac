/** Matching a query against one field, and the score of a match (internal/session/filter.go). */
module FuzzyMatch {
  import opened Wrappers

  const CONSECUTIVE_BONUS := 8
  const WORD_START_BONUS := 6
  const MATCH_SCORE := 1
  const GAP_PENALTY := 1

  predicate IsWordBoundary(c: char) {
    || c == ' ' || c == '-' || c == '_' || c == '.' || c == '/' || c == ':' || c == '\t'
    || '0' <= c <= '9'
  }

  // ----- Subsequences -----

  /** The positions `at` of `hay` spell `needle`, in order. */
  predicate Spells(at: seq<nat>, needle: string, hay: string) {
    && |at| == |needle|
    && (forall i | 0 <= i < |at| :: at[i] < |hay| && hay[at[i]] == needle[i])
    && (forall i, j | 0 <= i < j < |at| :: at[i] < at[j])
  }

  ghost predicate Subsequence(needle: string, hay: string) {
    exists at: seq<nat> :: Spells(at, needle, hay)
  }

  /** The first place of `c` from `from` on, or the length when there is none. */
  function Find(hay: string, c: char, from: nat): (i: nat)
    requires from <= |hay|
    ensures from <= i <= |hay|
    ensures i < |hay| ==> hay[i] == c
    ensures forall k | from <= k < i :: hay[k] != c
    decreases |hay| - from
  {
    if from == |hay| || hay[from] == c then from else Find(hay, c, from + 1)
  }

  /** The places the scan settles on: each character at its first place after the one before. */
  function Places(needle: string, hay: string, from: nat): Option<seq<nat>>
    requires from <= |hay|
  {
    if needle == [] then Some([])
    else
      var i := Find(hay, needle[0], from);
      if i == |hay| then None
      else match Places(needle[1..], hay, i + 1)
        case None => None
        case Some(rest) => Some([i] + rest)
  }

  lemma {:induction false} PlacesSpell(needle: string, hay: string, from: nat)
    requires from <= |hay|
    ensures var p := Places(needle, hay, from);
            p.Some? ==> Spells(p.value, needle, hay) && forall i | 0 <= i < |p.value| :: p.value[i] >= from
    decreases |needle|
  {
    if needle != [] {
      var i := Find(hay, needle[0], from);
      if i < |hay| {
        PlacesSpell(needle[1..], hay, i + 1);
      }
    }
  }

  lemma {:induction false} PlacesEarliest(needle: string, hay: string, from: nat, at: seq<nat>)
    requires from <= |hay| && Spells(at, needle, hay) && forall i | 0 <= i < |at| :: at[i] >= from
    ensures var p := Places(needle, hay, from);
            p.Some? && |p.value| == |at| && forall i | 0 <= i < |at| :: p.value[i] <= at[i]
    decreases |needle|
  {
    if needle != [] {
      var i := Find(hay, needle[0], from);
      assert i <= at[0] && i < |hay|;
      PlacesEarliest(needle[1..], hay, i + 1, at[1..]);
    }
  }

  /** The scan never backtracks, and misses nothing by it. */
  lemma ScanFindsSubsequences(needle: string, hay: string)
    ensures Places(needle, hay, 0).Some? <==> Subsequence(needle, hay)
  {
    PlacesSpell(needle, hay, 0);
    if at: seq<nat> :| Spells(at, needle, hay) {
      PlacesEarliest(needle, hay, 0, at);
    }
  }

  // ----- Scores -----

  function WordStarts(hay: string, at: seq<nat>): nat
    requires forall i | 0 <= i < |at| :: at[i] < |hay|
  {
    if at == [] then 0
    else
      var p := at[|at| - 1];
      WordStarts(hay, at[..|at| - 1]) + (if p == 0 || IsWordBoundary(hay[p - 1]) then 1 else 0)
  }

  /** Once anything has matched every further character earns the consecutive bonus, and only a late
      first character is penalised: the gaps in between cost nothing. */
  function Points(hay: string, at: seq<nat>): int
    requires forall i | 0 <= i < |at| :: at[i] < |hay|
  {
    if at == [] then 0
    else
      MATCH_SCORE * |at| + CONSECUTIVE_BONUS * (|at| - 1) + WORD_START_BONUS * WordStarts(hay, at)
        - (if at[0] > 0 then GAP_PENALTY else 0)
  }

  /** The score of a match, or None. */
  function Score(hay: string, needle: string): Option<int> {
    if needle == "" then Some(0)
    else
      var h, n := Lower(hay), Lower(needle);
      PlacesSpell(n, h, 0);
      match Places(n, h, 0)
      case None => None
      case Some(at) => Some(Points(h, at) - |h| / 16)
  }

  /** A field matches exactly when it has the query as a subsequence, letter case aside. */
  lemma MatchesAreSubsequences(hay: string, needle: string)
    ensures Score(hay, needle).Some? <==> Subsequence(Lower(needle), Lower(hay))
  {
    ScanFindsSubsequences(Lower(needle), Lower(hay));
    if needle == "" {
      assert Spells([], Lower(needle), Lower(hay));
    }
  }

  // ----- The score that was meant -----

  /** How often the match skips characters between one matched character and the next. */
  function Gaps(at: seq<nat>): nat {
    if |at| <= 1 then 0
    else
      var n := |at| - 1;
      Gaps(at[..n]) + (if at[n] == at[n - 1] + 1 then 0 else 1)
  }

  predicate Contiguous(at: seq<nat>) {
    forall i | 1 <= i < |at| :: at[i] == at[i - 1] + 1
  }

  /** The score as the scan's constants and comments have it: the bonus only for a character that
      follows the one matched before it, the penalty wherever characters were skipped. */
  function Intended(hay: string, at: seq<nat>): int
    requires forall i | 0 <= i < |at| :: at[i] < |hay|
  {
    if at == [] then 0
    else
      var n := |at| - 1;
      var p := at[n];
      var follows := if n == 0 then p == 0 else p == at[n - 1] + 1;
      Intended(hay, at[..n]) + MATCH_SCORE
        + (if p == 0 || IsWordBoundary(hay[p - 1]) then WORD_START_BONUS else 0)
        + (if n > 0 && follows then CONSECUTIVE_BONUS else 0) - (if follows then 0 else GAP_PENALTY)
  }

  function IntendedScore(hay: string, needle: string): Option<int> {
    if needle == "" then Some(0)
    else
      var h, n := Lower(hay), Lower(needle);
      PlacesSpell(n, h, 0);
      match Places(n, h, 0)
      case None => None
      case Some(at) => Some(Intended(h, at) - |h| / 16)
  }

  lemma {:induction false} NoGaps(at: seq<nat>)
    ensures Gaps(at) == 0 <==> Contiguous(at)
    decreases |at|
  {
    if |at| > 1 {
      var n := |at| - 1;
      NoGaps(at[..n]);
      var front := at[..n];
      assert forall i | 0 <= i < n :: front[i] == at[i];
    }
  }

  /** Contrary to what the scan means to do, every gap earns the bonus it should lose and is spared
      the penalty: for any text and any match the score is what was meant plus nine a gap. */
  lemma {:induction false} GapsArePaid(hay: string, at: seq<nat>)
    requires forall i | 0 <= i < |at| :: at[i] < |hay|
    ensures Points(hay, at) == Intended(hay, at) + (CONSECUTIVE_BONUS + GAP_PENALTY) * Gaps(at)
    decreases |at|
  {
    if at != [] {
      var n := |at| - 1;
      GapsArePaid(hay, at[..n]);
      assert at == at[..n] + [at[n]];
      OneMorePoint(hay, at[..n], at[n]);
    }
  }

  /** A field's score is the one meant exactly when it does not match or matches without a gap. */
  lemma ScoreIsIntended(hay: string, needle: string)
    ensures var at := Places(Lower(needle), Lower(hay), 0);
            && (Score(hay, needle) == IntendedScore(hay, needle) <==> at.None? || Contiguous(at.value))
            && (at.Some? ==>
                  Score(hay, needle).value
                  == IntendedScore(hay, needle).value + (CONSECUTIVE_BONUS + GAP_PENALTY) * Gaps(at.value))
  {
    var h, n := Lower(hay), Lower(needle);
    PlacesSpell(n, h, 0);
    if Places(n, h, 0).Some? {
      NoGaps(Places(n, h, 0).value);
      GapsArePaid(h, Places(n, h, 0).value);
    }
  }

  /** A match scattered over the text scores what a tight one of the same length does. */
  lemma ScatteredScoresAsTight()
    ensures Score("xabcxx", "abc") == IntendedScore("xabcxx", "abc") == Some(18)
    ensures Score("xaxbxc", "abc") == Some(18) && IntendedScore("xaxbxc", "abc") == Some(0)
  {
    TightMatch();
    ScatteredMatch();
  }

  lemma TightMatch()
    ensures Score("xabcxx", "abc") == IntendedScore("xabcxx", "abc") == Some(18)
  {
    NoGaps([1, 2, 3]);
    ThreeLetters("xabcxx", 1, 2, 3);
  }

  lemma ScatteredMatch()
    ensures Score("xaxbxc", "abc") == Some(18) && IntendedScore("xaxbxc", "abc") == Some(0)
  {
    assert [1, 3, 5][..2] == [1, 3];
    assert Gaps([1, 3, 5]) == 2;
    ThreeLetters("xaxbxc", 1, 3, 5);
  }

  lemma ThreeLetters(hay: string, i: nat, j: nat, k: nat)
    requires |hay| < 16 && forall p | 0 <= p < |hay| :: 'a' <= hay[p] <= 'z'
    requires 0 < i < j < k < |hay| && hay[i] == 'a' && hay[j] == 'b' && hay[k] == 'c'
    requires forall p | 0 <= p < i :: hay[p] != 'a'
    requires forall p | i < p < j :: hay[p] != 'b'
    requires forall p | j < p < k :: hay[p] != 'c'
    ensures Score(hay, "abc") == Some(18)
    ensures IntendedScore(hay, "abc") == Some(18 - (CONSECUTIVE_BONUS + GAP_PENALTY) * Gaps([i, j, k]))
  {
    ThreePlaces(hay, i, j, k);
    LowerKeeps(hay);
    LowerKeeps("abc");
    ThreePoints(hay, i, j, k);
    ScoreIsIntended(hay, "abc");
  }

  lemma ThreePoints(hay: string, i: nat, j: nat, k: nat)
    requires forall p | 0 <= p < |hay| :: 'a' <= hay[p] <= 'z'
    requires 0 < i < j < k < |hay|
    ensures Points(hay, [i, j, k]) == 18
  {
    NoWordStarts(hay, [i, j, k]);
  }

  lemma LowerKeeps(s: string)
    requires forall p | 0 <= p < |s| :: 'a' <= s[p] <= 'z'
    ensures Lower(s) == s
  {
  }

  lemma ThreePlaces(hay: string, i: nat, j: nat, k: nat)
    requires i < j < k < |hay| && hay[i] == 'a' && hay[j] == 'b' && hay[k] == 'c'
    requires forall p | 0 <= p < i :: hay[p] != 'a'
    requires forall p | i < p < j :: hay[p] != 'b'
    requires forall p | j < p < k :: hay[p] != 'c'
    ensures Places("abc", hay, 0) == Some([i, j, k])
  {
    assert "abc"[1..] == "bc" && "bc"[1..] == "c" && "c"[1..] == "";
    assert Places("", hay, k + 1) == Some([]);
    PlaceNext("c", hay, j + 1, k, []);
    assert [k] + [] == [k] && [j] + [k] == [j, k] && [i] + [j, k] == [i, j, k];
    PlaceNext("bc", hay, i + 1, j, [k]);
    PlaceNext("abc", hay, 0, i, [j, k]);
  }

  lemma PlaceNext(needle: string, hay: string, from: nat, i: nat, rest: seq<nat>)
    requires needle != "" && from <= i < |hay| && hay[i] == needle[0]
    requires forall p | from <= p < i :: hay[p] != needle[0]
    requires Places(needle[1..], hay, i + 1) == Some(rest)
    ensures Places(needle, hay, from) == Some([i] + rest)
  {
  }

  lemma NoWordStarts(hay: string, at: seq<nat>)
    requires forall i | 0 <= i < |at| :: 0 < at[i] < |hay| && 'a' <= hay[at[i] - 1] <= 'z'
    ensures WordStarts(hay, at) == 0
  {
  }

  // ----- The scan as the program has it -----

  function Join(at: seq<nat>, more: Option<seq<nat>>): Option<seq<nat>> {
    if more.Some? then Some(at + more.value) else None
  }

  lemma OneMorePlace(needle: string, hay: string, at: seq<nat>, from: nat)
    requires needle != [] && from <= |hay| && Find(hay, needle[0], from) < |hay|
    ensures var i := Find(hay, needle[0], from);
            Join(at, Places(needle, hay, from)) == Join(at + [i], Places(needle[1..], hay, i + 1))
  {
    var i := Find(hay, needle[0], from);
    var rest := Places(needle[1..], hay, i + 1);
    if rest.Some? {
      assert at + ([i] + rest.value) == at + [i] + rest.value;
    }
  }

  lemma OneMorePoint(hay: string, at: seq<nat>, p: nat)
    requires p < |hay| && forall i | 0 <= i < |at| :: at[i] < |hay|
    ensures Points(hay, at + [p]) == Points(hay, at) + Gain(hay, p, at != [])
  {
    assert (at + [p])[..|at|] == at && (at != [] ==> (at + [p])[0] == at[0]);
    assert WordStarts(hay, at + [p])
        == WordStarts(hay, at) + (if p == 0 || IsWordBoundary(hay[p - 1]) then 1 else 0);
  }

  method ScanTo(h: string, c: char, from: nat) returns (hi: nat)
    requires from <= |h|
    ensures hi == Find(h, c, from)
  {
    hi := from;
    while hi < |h| && h[hi] != c
      invariant from <= hi <= |h| && Find(h, c, from) == Find(h, c, hi)
    {
      hi := hi + 1;
    }
  }

  method FuzzyScore(hay: string, needle: string) returns (score: int, matched: bool)
    ensures matched <==> Score(hay, needle).Some?
    ensures score == Score(hay, needle).GetOr(0)
  {
    if needle == "" {
      return 0, true;
    }
    var h, n := Lower(hay), Lower(needle);
    ghost var at: seq<nat>;
    score, matched, at := Scan(h, n);
    if matched {
      score := score - |h| / 16;
    }
  }

  /** Matches each character of the needle at its first place after the one before. */
  method Scan(h: string, n: string) returns (score: int, matched: bool, ghost at: seq<nat>)
    ensures if matched then Places(n, h, 0) == Some(at) && (forall i | 0 <= i < |at| :: at[i] < |h|) && score == Points(h, at)
            else Places(n, h, 0) == None && score == 0
  {
    score, at := 0, [];
    var hi: nat, prevMatched := 0, false;
    ScanStarts(h, n);
    for ni := 0 to |n|
      invariant Scanned(h, n, ni, hi, at, score) && (prevMatched <==> at != [])
    {
      var found := ScanTo(h, n[ni], hi);
      if found == |h| {
        return 0, false, [];
      }
      ScanAdvances(h, n, ni, hi, at, score);
      score := AddMatch(h, found, prevMatched, score);
      prevMatched := true;
      at := at + [found];
      hi := found + 1;
    }
    assert at + [] == at;
    matched := true;
  }

  /** The points one more matched character earns. */
  method AddMatch(h: string, found: nat, prevMatched: bool, before: int) returns (score: int)
    requires found < |h|
    ensures score == before + Gain(h, found, prevMatched)
  {
    score := before + MATCH_SCORE;
    if prevMatched {
      score := score + CONSECUTIVE_BONUS;
    }
    if found == 0 || IsWordBoundary(h[found - 1]) {
      score := score + WORD_START_BONUS;
    }
    if !prevMatched && found > 0 {
      score := score - GAP_PENALTY;
    }
  }

  function Gain(h: string, found: nat, prevMatched: bool): int
    requires found < |h|
  {
    MATCH_SCORE + (if prevMatched then CONSECUTIVE_BONUS else 0)
      + (if found == 0 || IsWordBoundary(h[found - 1]) then WORD_START_BONUS else 0)
      - (if !prevMatched && found > 0 then GAP_PENALTY else 0)
  }

  /** Where the scan stands once `ni` characters are matched, at the places `at`. */
  predicate Scanned(h: string, n: string, ni: nat, hi: nat, at: seq<nat>, score: int) {
    && ni <= |n| && hi <= |h| && (at != [] <==> ni > 0)
    && (forall i | 0 <= i < |at| :: at[i] < |h|)
    && Places(n, h, 0) == Join(at, Places(n[ni..], h, hi))
    && score == Points(h, at)
  }

  lemma ScanStarts(h: string, n: string)
    ensures Scanned(h, n, 0, 0, [], 0)
  {
    assert n[0..] == n;
    if Places(n, h, 0).Some? {
      assert [] + Places(n, h, 0).value == Places(n, h, 0).value;
    }
  }

  lemma ScanAdvances(h: string, n: string, ni: nat, hi: nat, at: seq<nat>, score: int)
    requires ni < |n| && Scanned(h, n, ni, hi, at, score) && Find(h, n[ni], hi) < |h|
    ensures var found := Find(h, n[ni], hi);
            Scanned(h, n, ni + 1, found + 1, at + [found], score + Gain(h, found, at != []))
  {
    OneMorePlace(n[ni..], h, at, hi);
    OneMorePoint(h, at, Find(h, n[ni], hi));
    assert n[ni..][1..] == n[ni + 1..];
  }
}
