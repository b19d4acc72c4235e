/**
 * The daily fortune page: a seed computed from today's date picks one of
 * six fortunes and two different lucky items, through a pseudo-random
 * transform of the seed that is a parameter here; the result is shown once
 * the card is revealed.
 */
module Fortune {
  import opened Wrappers
  import opened CivilDate

  /** A value in [0, 1), as `seededRandom` returns. */
  type UnitReal = r: real | 0.0 <= r < 1.0

  datatype FortuneEntry = FortuneEntry(fortune: string, description: string, color: string)

  /** `FortuneResult`: the label, its description, two lucky items and the badge colour. */
  datatype FortuneResult = FortuneResult(fortune: string, description: string, luckyItems: seq<string>, color: string)

  /** `FORTUNES`: the six fortunes, best first, each with its description and badge colour. */
  const Fortunes: seq<FortuneEntry> := [
    FortuneEntry("大吉", "素晴らしい一日になりそうです！何事も積極的に挑戦してみましょう。", "#ff6b6b"),
    FortuneEntry("中吉", "良いことが起こりそうな予感です。チャンスを逃さないようにしましょう。", "#ff9f43"),
    FortuneEntry("小吉", "小さな幸せが見つかる日です。身の回りの変化に注目してみてください。", "#feca57"),
    FortuneEntry("吉", "平穏で安定した一日になりそうです。計画的に物事を進めましょう。", "#48dbfb"),
    FortuneEntry("末吉", "後半に向けて運気が上昇してきます。諦めずに頑張りましょう。", "#0abde3"),
    FortuneEntry("凶", "慎重に行動することで困難を乗り越えられます。無理は禁物です。", "#c8d6e5")
  ]

  /** `LUCKY_ITEM_EMOJIS`: 32 emoji, two of them followed by the emoji presentation selector U+FE0F. */
  const LuckyItemEmojis: seq<string> := [
    "\U{1F340}", "\U{1F48E}", "\U{1F31F}", "\U{1F3AF}",
    "\U{1F5DD}\U{FE0F}", "\U{1F4FF}", "\U{1F52E}", "\U{1F4B0}",
    "\U{1F3AA}", "\U{1F3AD}", "\U{1F3A8}", "\U{1F3B5}",
    "\U{1F4DA}", "\U{2728}", "\U{1F319}", "\U{2600}\U{FE0F}",
    "\U{1F98B}", "\U{1F41E}", "\U{1F308}", "\U{1F388}",
    "\U{1F381}", "\U{1F3C6}", "\U{1F451}", "\U{1F49D}",
    "\U{1F9FF}", "\U{1FAAC}", "\U{1F338}", "\U{1F33A}",
    "\U{1F352}", "\U{1F34A}", "\U{1F947}", "\U{2B50}"
  ]

  /** `generateSeed`: `year * 10000 + getMonth() * 100 + getDate()`, with the zero-based month. */
  function GenerateSeed(d: Date): int {
    d.year * 10000 + (d.month - 1) * 100 + d.day
  }

  /** Different existing dates give different seeds, so each day has its own fortune. */
  lemma SeedInjective(a: Date, b: Date)
    requires IsValid(a) && IsValid(b) && GenerateSeed(a) == GenerateSeed(b)
    ensures a == b
  {
    assert a.year == b.year by {
      assert 0 < (a.month - 1) * 100 + a.day < 10000;
      assert 0 < (b.month - 1) * 100 + b.day < 10000;
    }
  }

  /**
   * `Math.floor(x * n)` for `x` in [0, 1): an index into a table of `n`
   * entries, found as the largest index not above `x * n`.
   */
  function ScaledIndex(x: UnitReal, n: int): (i: int)
    requires n > 0
    ensures 0 <= i < n
  {
    LargestIndexAtMost(x * (n as real), n - 1)
  }

  /** The largest `k` in 1..`top` with `k <= y`, or 0 when there is none. */
  function LargestIndexAtMost(y: real, top: nat): (k: nat)
    ensures k <= top
  {
    if top == 0 || top as real <= y then top else LargestIndexAtMost(y, top - 1)
  }

  /** The search result is the whole part of `y`, for `y` below `top + 1`. */
  lemma {:induction false} LargestIndexIsFloor(y: real, top: nat)
    requires 0.0 <= y
    ensures var k := LargestIndexAtMost(y, top);
      k as real <= y && (k < top ==> y < (k + 1) as real)
  {
    if top != 0 && !(top as real <= y) {
      LargestIndexIsFloor(y, top - 1);
    }
  }

  lemma ScaleBelow(x: real, n: real)
    requires 0.0 <= x < 1.0 && n > 0.0
    ensures 0.0 <= x * n < n
  {
    assert n - x * n == (1.0 - x) * n;
  }

  /** The index is `Math.floor(x * n)`: the integer `i` with `i <= x * n < i + 1`. */
  lemma ScaledIndexIsFloor(x: UnitReal, n: int)
    requires n > 0
    ensures var i := ScaledIndex(x, n);
      i as real <= x * (n as real) < (i + 1) as real
  {
    var y := x * (n as real);
    assert ScaledIndex(x, n) == LargestIndexAtMost(y, n - 1);
    ScaleBelow(x, n as real);
    SearchBelowBound(y, n);
  }

  lemma SearchBelowBound(y: real, n: int)
    requires n > 0 && 0.0 <= y < n as real
    ensures var i := LargestIndexAtMost(y, n - 1);
      i as real <= y < (i + 1) as real
  {
    LargestIndexIsFloor(y, n - 1);
  }

  /** The second lucky item's index: the next one along, cyclically, when it would repeat the first. */
  function SecondItemIndex(item1Index: int, item2Start: int): int {
    if item2Start == item1Index then (item2Start + 1) % |LuckyItemEmojis| else item2Start
  }

  /** The result for a fortune index, a first item index and the second item's initial index. */
  function FortuneFromIndices(fortuneIndex: int, item1Index: int, item2Start: int): FortuneResult
    requires 0 <= fortuneIndex < |Fortunes|
    requires 0 <= item1Index < |LuckyItemEmojis| && 0 <= item2Start < |LuckyItemEmojis|
  {
    var entry := Fortunes[fortuneIndex];
    FortuneResult(entry.fortune, entry.description,
      [LuckyItemEmojis[item1Index], LuckyItemEmojis[SecondItemIndex(item1Index, item2Start)]], entry.color)
  }

  /**
   * `seededRandom(seed)`: a value in [0, 1) that depends on the seed only.
   * The page derives it from `Math.sin`; here the transform is the
   * parameter `random`.
   */
  function SeededRandom(random: int -> UnitReal, seed: int): UnitReal {
    random(seed)
  }

  /** The three table indices drawn for a day. */
  datatype Draw = Draw(fortuneIndex: int, item1Index: int, item2Start: int)

  /**
   * The indices `generateTodaysFortune` draws for a day, given the
   * pseudo-random transform `seededRandom` as `random`: the seed picks the
   * fortune, the seed plus one the first item and the seed plus two the
   * second item's initial index.
   */
  function DrawFor(date: Date, random: int -> UnitReal): (d: Draw)
    ensures 0 <= d.fortuneIndex < |Fortunes|
    ensures 0 <= d.item1Index < |LuckyItemEmojis| && 0 <= d.item2Start < |LuckyItemEmojis|
  {
    var seed := GenerateSeed(date);
    Draw(ScaledIndex(SeededRandom(random, seed), |Fortunes|),
      ScaledIndex(SeededRandom(random, seed + 1), |LuckyItemEmojis|),
      ScaledIndex(SeededRandom(random, seed + 2), |LuckyItemEmojis|))
  }

  /** The result `generateTodaysFortune` returns for a day. */
  function FortuneFor(date: Date, random: int -> UnitReal): FortuneResult {
    var d := DrawFor(date, random);
    FortuneFromIndices(d.fortuneIndex, d.item1Index, d.item2Start)
  }

  /**
   * `generateTodaysFortune`, with the clock's instant `now` and the
   * pseudo-random transform passed in. The loop bumps the second index until
   * it differs from the first; it runs at most once.
   */
  method GenerateTodaysFortune(now: Instant, random: int -> UnitReal) returns (result: FortuneResult)
    ensures result == FortuneFor(now.date, random)
  {
    var seed := GenerateSeed(now.date);
    var fortuneIndex := ScaledIndex(SeededRandom(random, seed), |Fortunes|);
    var selectedFortune := Fortunes[fortuneIndex];
    var item1Index := ScaledIndex(SeededRandom(random, seed + 1), |LuckyItemEmojis|);
    var item2Index := ScaledIndex(SeededRandom(random, seed + 2), |LuckyItemEmojis|);
    ghost var item2Start := item2Index;
    while item2Index == item1Index
      invariant 0 <= item2Index < |LuckyItemEmojis|
      invariant item2Index == item2Start
        || (item2Start == item1Index && item2Index == (item2Start + 1) % |LuckyItemEmojis|)
      decreases if item2Index == item1Index then 1 else 0
    {
      item2Index := (item2Index + 1) % |LuckyItemEmojis|;
    }
    assert item2Index == SecondItemIndex(item1Index, item2Start);
    result := FortuneResult(selectedFortune.fortune, selectedFortune.description,
      [LuckyItemEmojis[item1Index], LuckyItemEmojis[item2Index]], selectedFortune.color);
    assert result == FortuneFromIndices(fortuneIndex, item1Index, item2Start);
    assert DrawFor(now.date, random) == Draw(fortuneIndex, item1Index, item2Start);
  }

  /** The position in the table of the item that starts with `c`, or -1. */
  function ItemPosition(c: char): int {
    if c == '\U{1F340}' then 0
    else if c == '\U{1F48E}' then 1
    else if c == '\U{1F31F}' then 2
    else if c == '\U{1F3AF}' then 3
    else if c == '\U{1F5DD}' then 4
    else if c == '\U{1F4FF}' then 5
    else if c == '\U{1F52E}' then 6
    else if c == '\U{1F4B0}' then 7
    else if c == '\U{1F3AA}' then 8
    else if c == '\U{1F3AD}' then 9
    else if c == '\U{1F3A8}' then 10
    else if c == '\U{1F3B5}' then 11
    else if c == '\U{1F4DA}' then 12
    else if c == '\U{2728}' then 13
    else if c == '\U{1F319}' then 14
    else if c == '\U{2600}' then 15
    else if c == '\U{1F98B}' then 16
    else if c == '\U{1F41E}' then 17
    else if c == '\U{1F308}' then 18
    else if c == '\U{1F388}' then 19
    else if c == '\U{1F381}' then 20
    else if c == '\U{1F3C6}' then 21
    else if c == '\U{1F451}' then 22
    else if c == '\U{1F49D}' then 23
    else if c == '\U{1F9FF}' then 24
    else if c == '\U{1FAAC}' then 25
    else if c == '\U{1F338}' then 26
    else if c == '\U{1F33A}' then 27
    else if c == '\U{1F352}' then 28
    else if c == '\U{1F34A}' then 29
    else if c == '\U{1F947}' then 30
    else if c == '\U{2B50}' then 31
    else -1
  }

  /** Each item starts with a code point no other item starts with. */
  lemma ItemPositionOfItem(i: int)
    requires 0 <= i < |LuckyItemEmojis|
    ensures LuckyItemEmojis[i] != [] && ItemPosition(LuckyItemEmojis[i][0]) == i
  {
  }

  /** The 32 lucky items are pairwise different. */
  lemma LuckyItemsDistinct()
    ensures forall i, j :: 0 <= i < j < |LuckyItemEmojis| ==> LuckyItemEmojis[i] != LuckyItemEmojis[j]
  {
    forall i, j | 0 <= i < j < |LuckyItemEmojis|
      ensures LuckyItemEmojis[i] != LuckyItemEmojis[j]
    {
      ItemPositionOfItem(i);
      ItemPositionOfItem(j);
    }
  }

  /** The second index stays in the table and differs from the first. */
  lemma SecondItemIndexDiffers(item1Index: int, item2Start: int)
    requires 0 <= item1Index < |LuckyItemEmojis| && 0 <= item2Start < |LuckyItemEmojis|
    ensures 0 <= SecondItemIndex(item1Index, item2Start) < |LuckyItemEmojis|
    ensures SecondItemIndex(item1Index, item2Start) != item1Index
    ensures item2Start != item1Index ==> SecondItemIndex(item1Index, item2Start) == item2Start
  {
  }

  /**
   * The result carries one table entry's label, description and colour
   * together, and two different lucky items from the table, first item one
   * and then item two.
   */
  lemma FortuneFromIndicesShape(fortuneIndex: int, item1Index: int, item2Start: int)
    requires 0 <= fortuneIndex < |Fortunes|
    requires 0 <= item1Index < |LuckyItemEmojis| && 0 <= item2Start < |LuckyItemEmojis|
    ensures var r := FortuneFromIndices(fortuneIndex, item1Index, item2Start);
      && Fortunes[fortuneIndex] == FortuneEntry(r.fortune, r.description, r.color)
      && |r.luckyItems| == 2 && r.luckyItems[0] == LuckyItemEmojis[item1Index]
      && r.luckyItems[1] == LuckyItemEmojis[SecondItemIndex(item1Index, item2Start)]
      && r.luckyItems[0] != r.luckyItems[1]
  {
    var second := SecondItemIndex(item1Index, item2Start);
    SecondItemIndexDiffers(item1Index, item2Start);
    LuckyItemsDistinct();
    assert LuckyItemEmojis[item1Index] != LuckyItemEmojis[second] by {
      if item1Index < second {
      } else {
      }
    }
  }

  /** Whatever the transform returns, the day's result has the shape above. */
  lemma FortuneForShape(date: Date, random: int -> UnitReal)
    ensures var r := FortuneFor(date, random);
      && (exists k :: 0 <= k < |Fortunes| && Fortunes[k] == FortuneEntry(r.fortune, r.description, r.color))
      && |r.luckyItems| == 2
      && r.luckyItems[0] in LuckyItemEmojis && r.luckyItems[1] in LuckyItemEmojis
      && r.luckyItems[0] != r.luckyItems[1]
  {
    var d := DrawFor(date, random);
    FortuneFromIndicesShape(d.fortuneIndex, d.item1Index, d.item2Start);
  }

  /** The six labels, from best to worst. */
  const FortuneLabels: seq<string> := ["大吉", "中吉", "小吉", "吉", "末吉", "凶"]

  /** The label is one of the six fortunes. */
  lemma FortuneLabel(date: Date, random: int -> UnitReal)
    ensures FortuneFor(date, random).fortune in FortuneLabels
  {
    var d := DrawFor(date, random);
    var k := d.fortuneIndex;
    assert FortuneFor(date, random).fortune == Fortunes[k].fortune;
    assert Fortunes[k].fortune == FortuneLabels[k];
  }

  /** Two instants on the same day get the same fortune, whatever the time of day. */
  method SameDaySameFortune(morning: Instant, evening: Instant, random: int -> UnitReal)
    requires morning.date == evening.date
  {
    var first := GenerateTodaysFortune(morning, random);
    var second := GenerateTodaysFortune(evening, random);
    assert first == second;
  }

  /** The lucky-item check of the end-to-end tests: some code point lies in one of four emoji blocks. */
  predicate MatchesTestedEmojiPattern(s: string) {
    exists k :: 0 <= k < |s| && InTestedEmojiBlock(s[k])
  }

  predicate InTestedEmojiBlock(c: char) {
    || '\U{1F000}' <= c <= '\U{1F6FF}' || '\U{1F900}' <= c <= '\U{1F9FF}'
    || '\U{2600}' <= c <= '\U{26FF}' || '\U{2700}' <= c <= '\U{27BF}'
  }

  /** The pattern as written rejects two items of the table: U+1FAAC and U+2B50. */
  lemma TestedPatternMissesItems()
    ensures !MatchesTestedEmojiPattern(LuckyItemEmojis[25])
    ensures !MatchesTestedEmojiPattern(LuckyItemEmojis[31])
  {
  }

  /**
   * The lucky-item check of the acceptance scenarios: the same pattern
   * without the Supplemental Symbols and Pictographs block U+1F900-1F9FF.
   */
  predicate MatchesAcceptanceEmojiPattern(s: string) {
    exists k :: 0 <= k < |s| && InAcceptanceEmojiBlock(s[k])
  }

  predicate InAcceptanceEmojiBlock(c: char) {
    || '\U{1F000}' <= c <= '\U{1F6FF}'
    || '\U{2600}' <= c <= '\U{26FF}' || '\U{2700}' <= c <= '\U{27BF}'
  }

  /**
   * The narrower pattern rejects five items of the table: U+1F98B, U+1F9FF
   * and U+1F947 besides U+1FAAC and U+2B50.
   */
  lemma AcceptancePatternMissesItems()
    ensures !MatchesAcceptanceEmojiPattern(LuckyItemEmojis[16])
    ensures !MatchesAcceptanceEmojiPattern(LuckyItemEmojis[24])
    ensures !MatchesAcceptanceEmojiPattern(LuckyItemEmojis[25])
    ensures !MatchesAcceptanceEmojiPattern(LuckyItemEmojis[30])
    ensures !MatchesAcceptanceEmojiPattern(LuckyItemEmojis[31])
  {
  }

  /** The same blocks, plus Symbols and Pictographs Extended-A and Miscellaneous Symbols and Arrows. */
  predicate InEmojiBlock(c: char) {
    || InTestedEmojiBlock(c)
    || '\U{1FA70}' <= c <= '\U{1FAFF}' || '\U{2B00}' <= c <= '\U{2BFF}'
  }

  predicate MatchesEmojiPattern(s: string) {
    exists k :: 0 <= k < |s| && InEmojiBlock(s[k])
  }

  /** With the two extra blocks every lucky item matches. */
  lemma LuckyItemsMatch()
    ensures forall i :: 0 <= i < |LuckyItemEmojis| ==> MatchesEmojiPattern(LuckyItemEmojis[i])
  {
    forall i | 0 <= i < |LuckyItemEmojis|
      ensures MatchesEmojiPattern(LuckyItemEmojis[i])
    {
      assert InEmojiBlock(LuckyItemEmojis[i][0]);
    }
  }

  /** So both displayed items match, whatever the day and the transform. */
  lemma DisplayedItemsMatch(date: Date, random: int -> UnitReal)
    ensures forall item :: item in FortuneFor(date, random).luckyItems ==> MatchesEmojiPattern(item)
  {
    LuckyItemsMatch();
    FortuneForShape(date, random);
  }

  /** The page's state: the fortune computed on mount and whether its card is revealed. */
  class FortunePage {
    var todaysFortune: Option<FortuneResult>
    var isRevealed: bool

    constructor ()
      ensures todaysFortune == None && !isRevealed
    {
      todaysFortune := None;
      isRevealed := false;
    }

    /** The mount effect: `setTodaysFortune(generateTodaysFortune())`. */
    method Load(now: Instant, random: int -> UnitReal)
      modifies this`todaysFortune
      ensures todaysFortune == Some(FortuneFor(now.date, random))
    {
      var fortune := GenerateTodaysFortune(now, random);
      todaysFortune := Some(fortune);
    }

    /** `handleRevealFortune`. */
    method Reveal()
      modifies this`isRevealed
      ensures isRevealed
    {
      isRevealed := true;
    }

    /** `handleResetFortune`. */
    method Reset()
      modifies this`isRevealed
      ensures !isRevealed
    {
      isRevealed := false;
    }
  }
}
