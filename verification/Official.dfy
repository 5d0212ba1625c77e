/**
 Splitting the official daily credits by model and by client.  A JavaScript Map keeps insertion order, so its
 values are a sequence of rows with distinct keys.  Amounts are reals; names come trimmed and in lower case.
 */
module Official {

  datatype Share = Share(model: string, speed: string, percent: real)
  datatype Turns = Turns(model: string, turns: real)
  datatype Client = Client(id: string, credits: real, turns: real, tokens: real)

  /** One settled day; `shares` is empty when the day has no token breakdown. */
  datatype Day = Day(credits: real, shares: seq<Share>, models: seq<Turns>, clients: seq<Client>)

  /** A row of a table.  What is shown as its label follows from the model and the speed. */
  datatype Row = Row(key: string, model: string, speed: string,
                     credits: real, usd: real, turns: real, tokens: real, share: real)

  function Or(name: string, default: string): string {
    if name == "" then default else name
  }

  /** The row key: model and speed joined by one space. */
  function KeyOf(model: string, speed: string): string {
    model + " " + speed
  }

  function ModelName(m: Share): string {
    Or(m.model, "-")
  }

  function SpeedName(m: Share): string {
    Or(m.speed, "standard")
  }

  function ShareKey(m: Share): string {
    KeyOf(ModelName(m), SpeedName(m))
  }

  function NewRow(key: string, model: string, speed: string): Row {
    Row(key, model, speed, 0.0, 0.0, 0.0, 0.0, 0.0)
  }

  /** The space that joins a key is its last one if there is none in the speed. */
  lemma LastSpace(model: string, speed: string)
    requires ' ' !in speed
    ensures KeyOf(model, speed)[|model|] == ' '
    ensures forall p :: |model| < p < |KeyOf(model, speed)| ==> KeyOf(model, speed)[p] != ' '
  {
    forall p | |model| < p < |KeyOf(model, speed)|
      ensures KeyOf(model, speed)[p] != ' '
    {
      assert KeyOf(model, speed)[p] == speed[p - |model| - 1];
    }
  }

  /** Without a space in the speeds, a key says which model and which speed it is made of. */
  lemma KeysAreTold(model: string, speed: string, model': string, speed': string)
    requires ' ' !in speed && ' ' !in speed'
    requires KeyOf(model, speed) == KeyOf(model', speed')
    ensures model == model' && speed == speed'
  {
    var k := KeyOf(model, speed);
    LastSpace(model, speed);
    LastSpace(model', speed');
    assert model == k[..|model|] && speed == k[|model| + 1..];
    assert model' == k[..|model'|] && speed' == k[|model'| + 1..];
  }

  /** The last space of a text that has one. */
  lemma {:induction false} SplitAtLastSpace(text: string) returns (p: nat)
    requires ' ' in text
    ensures p < |text| && text[p] == ' ' && ' ' !in text[p + 1..]
    decreases |text|
  {
    var n := |text| - 1;
    if text[n] == ' ' {
      p := n;
    } else {
      assert text == text[..n] + [text[n]];
      p := SplitAtLastSpace(text[..n]);
      assert text[p + 1..] == text[..n][p + 1..] + [text[n]];
    }
  }

  /**
   A key tells which model and which speed it is made of, among all with a plain speed, if and only if its own speed
   is plain: with a space in the speed, the model and the first part of the speed can be a longer model.
   */
  lemma KeyTellsIff(model: string, speed: string)
    ensures (forall model': string, speed': string ::
               ' ' !in speed' && KeyOf(model, speed) == KeyOf(model', speed') ==> model == model' && speed == speed')
            <==> ' ' !in speed
  {
    if ' ' in speed {
      var p := SplitAtLastSpace(speed);
      var longer, rest := model + " " + speed[..p], speed[p + 1..];
      assert speed == speed[..p] + " " + rest;
      assert KeyOf(longer, rest) == KeyOf(model, speed);
    } else {
      forall model': string, speed': string | ' ' !in speed' && KeyOf(model, speed) == KeyOf(model', speed')
        ensures model == model' && speed == speed'
      {
        KeysAreTold(model, speed, model', speed');
      }
    }
  }

  /** What a row stands for. */
  datatype Name = Name(model: string, speed: string) {
    function Key(): string {
      KeyOf(model, speed)
    }
  }

  function Names(rows: seq<Row>): seq<Name> {
    seq(|rows|, i requires 0 <= i < |rows| => Name(rows[i].model, rows[i].speed))
  }

  predicate KnowsKey(names: seq<Name>, key: string) {
    exists i :: 0 <= i < |names| && names[i].Key() == key
  }

  /** The rows after a day's entries: a positive entry with a new key adds one. */
  function WithEntries(names: seq<Name>, shares: seq<Share>): seq<Name>
    decreases |shares|
  {
    if shares == [] then names
    else
      var before, m := WithEntries(names, shares[..|shares| - 1]), shares[|shares| - 1];
      if m.percent > 0.0 && !KnowsKey(before, ShareKey(m)) then before + [Name(ModelName(m), SpeedName(m))] else before
  }

  lemma WithOneMore(names: seq<Name>, shares: seq<Share>, m: Share)
    ensures var before := WithEntries(names, shares);
            WithEntries(names, shares + [m])
            == if m.percent > 0.0 && !KnowsKey(before, ShareKey(m))
               then before + [Name(ModelName(m), SpeedName(m))] else before
  {
    assert (shares + [m])[..|shares|] == shares;
  }

  // ----- sums -----

  function Sum<T>(xs: seq<T>, f: T -> real): real
    decreases |xs|
  {
    if xs == [] then 0.0 else Sum(xs[..|xs| - 1], f) + f(xs[|xs| - 1])
  }

  lemma SumSnoc<T>(xs: seq<T>, x: T, f: T -> real)
    ensures Sum(xs + [x], f) == Sum(xs, f) + f(x)
  {
    assert (xs + [x])[..|xs|] == xs;
  }

  lemma {:induction false} SumUpdate<T>(xs: seq<T>, i: nat, x: T, f: T -> real)
    requires i < |xs|
    ensures Sum(xs[i := x], f) == Sum(xs, f) - f(xs[i]) + f(x)
    decreases |xs|
  {
    var n := |xs| - 1;
    if i == n {
      assert xs[i := x][..n] == xs[..n];
    } else {
      assert xs[i := x][..n] == xs[..n][i := x];
      SumUpdate(xs[..n], i, x, f);
    }
  }

  lemma {:induction false} SumConcat<T>(xs: seq<T>, ys: seq<T>, f: T -> real)
    ensures Sum(xs + ys, f) == Sum(xs, f) + Sum(ys, f)
    decreases |ys|
  {
    if ys == [] {
      assert xs + ys == xs;
    } else {
      var n := |ys| - 1;
      assert (xs + ys)[..|xs| + n] == xs + ys[..n];
      SumConcat(xs, ys[..n], f);
    }
  }

  /** Leaving one element out leaves its amount out. */
  lemma SumAround<T>(before: seq<T>, x: T, after: seq<T>, f: T -> real)
    ensures Sum(before + [x] + after, f) == Sum(before + after, f) + f(x)
  {
    SumConcat(before, after, f);
    SumConcat(before + [x], after, f);
    SumSnoc(before, x, f);
  }

  lemma RestMatches<T>(xs: seq<T>, before: seq<T>, x: T, after: seq<T>)
    requires xs != [] && xs[|xs| - 1] == x
    requires multiset(xs) == multiset(before + [x] + after)
    ensures multiset(xs[..|xs| - 1]) == multiset(before + after)
  {
    assert xs == xs[..|xs| - 1] + [x];
    assert multiset(xs[..|xs| - 1]) == multiset(xs) - multiset{x};
    assert multiset(before + [x] + after) - multiset{x} == multiset(before + after);
  }

  /** Sums do not depend on the order of the rows. */
  lemma {:induction false} SumOfPermutation<T>(xs: seq<T>, ys: seq<T>, f: T -> real)
    requires multiset(xs) == multiset(ys)
    ensures Sum(xs, f) == Sum(ys, f)
    decreases |xs|
  {
    assert |multiset(xs)| == |multiset(ys)|;
    if xs != [] {
      var n := |xs| - 1;
      var x := xs[n];
      assert x in multiset(ys);
      var i :| 0 <= i < |ys| && ys[i] == x;
      var before, after := ys[..i], ys[i + 1..];
      assert ys == before + [x] + after;
      RestMatches(xs, before, x, after);
      SumOfPermutation(xs[..n], before + after, f);
      SumAround(before, x, after, f);
    }
  }

  const Credits: Row -> real := (r: Row) => r.credits
  const Usd: Row -> real := (r: Row) => r.usd
  const TurnsOf: Row -> real := (r: Row) => r.turns
  const Tokens: Row -> real := (r: Row) => r.tokens
  const ShareOf: Row -> real := (r: Row) => r.share

  function KeyedShare(key: string): Row -> real {
    (r: Row) => if r.key == key then r.share else 0.0
  }

  function KeyedCredits(key: string): Row -> real {
    (r: Row) => if r.key == key then r.credits else 0.0
  }

  function KeyedTurns(key: string): Row -> real {
    (r: Row) => if r.key == key then r.turns else 0.0
  }

  function KeyedTokens(key: string): Row -> real {
    (r: Row) => if r.key == key then r.tokens else 0.0
  }

  /** The turns of a model, whatever the speed. */
  function TurnsOfModel(model: string): Row -> real {
    (r: Row) => if r.model == model then r.turns else 0.0
  }

  const TurnCount: Turns -> real := (m: Turns) => m.turns

  function Positive(m: Share): real {
    if m.percent > 0.0 then m.percent else 0.0
  }

  const PositivePercent: Share -> real := (m: Share) => Positive(m)

  /** The positive percentages of a day. */
  function Total(d: Day): real {
    Sum(d.shares, PositivePercent)
  }

  lemma {:induction false} PositiveSum(shares: seq<Share>)
    ensures Sum(shares, PositivePercent) >= 0.0
    ensures forall m :: m in shares && m.percent > 0.0 ==> Sum(shares, PositivePercent) > 0.0
    decreases |shares|
  {
    if shares != [] {
      var n := |shares| - 1;
      PositiveSum(shares[..n]);
      assert shares == shares[..n] + [shares[n]];
    }
  }

  // ----- rows by key -----

  predicate DistinctKeys(rows: seq<Row>) {
    forall i, j :: 0 <= i < j < |rows| ==> rows[i].key != rows[j].key
  }

  /** Every row's dollars are its credits converted. */
  ghost predicate Priced(rows: seq<Row>, perUsd: real)
    requires perUsd != 0.0
  {
    forall i :: 0 <= i < |rows| ==> rows[i].usd == rows[i].credits / perUsd
  }

  /** A table by model and speed; `plain` when no speed in it contains a space. */
  ghost predicate Table(rows: seq<Row>, perUsd: real, plain: bool)
    requires perUsd != 0.0
  {
    && DistinctKeys(rows) && Priced(rows, perUsd)
    && (forall i :: 0 <= i < |rows| ==> rows[i].key == KeyOf(rows[i].model, rows[i].speed))
    && (plain ==> forall i :: 0 <= i < |rows| ==> ' ' !in rows[i].speed)
  }

  predicate PlainSpeeds(shares: seq<Share>) {
    forall m :: m in shares ==> ' ' !in SpeedName(m)
  }

  /** The index of a key's row, or the number of rows. */
  method Find(rows: seq<Row>, key: string) returns (i: nat)
    ensures i <= |rows|
    ensures i < |rows| ==> rows[i].key == key
    ensures i == |rows| ==> forall k :: 0 <= k < |rows| ==> rows[k].key != key
  {
    i := 0;
    while i < |rows| && rows[i].key != key
      invariant i <= |rows|
      invariant forall k :: 0 <= k < i ==> rows[k].key != key
    {
      i := i + 1;
    }
  }

  /** The row of a key, created if there is none yet. */
  method GetOrAdd(rows: seq<Row>, key: string, model: string, speed: string) returns (rows': seq<Row>, i: nat)
    requires DistinctKeys(rows)
    ensures DistinctKeys(rows') && i < |rows'| && rows'[i].key == key
    ensures rows' == rows || (rows' == rows + [NewRow(key, model, speed)] && i == |rows|)
    ensures forall k :: 0 <= k < |rows| ==> rows[k] == rows'[k]
    ensures i == |rows| ==> forall k :: 0 <= k < |rows| ==> rows[k].key != key
  {
    i := Find(rows, key);
    rows' := if i < |rows| then rows else rows + [NewRow(key, model, speed)];
  }

  /** A new empty row adds nothing to any sum. */
  lemma NewRowAddsNothing(rows: seq<Row>, key: string, model: string, speed: string)
    ensures var more := rows + [NewRow(key, model, speed)];
            && Sum(more, Credits) == Sum(rows, Credits) && Sum(more, Usd) == Sum(rows, Usd)
            && Sum(more, TurnsOf) == Sum(rows, TurnsOf) && Sum(more, Tokens) == Sum(rows, Tokens)
            && Sum(more, ShareOf) == Sum(rows, ShareOf)
    ensures var more := rows + [NewRow(key, model, speed)];
            forall k ::
              && Sum(more, KeyedShare(k)) == Sum(rows, KeyedShare(k))
              && Sum(more, KeyedCredits(k)) == Sum(rows, KeyedCredits(k))
  {
  }

  lemma NewRowHasNoTurns(rows: seq<Row>, key: string, model: string, speed: string)
    ensures var more := rows + [NewRow(key, model, speed)];
            forall k ::
              && Sum(more, KeyedTurns(k)) == Sum(rows, KeyedTurns(k))
              && Sum(more, KeyedTokens(k)) == Sum(rows, KeyedTokens(k))
              && Sum(more, TurnsOfModel(k)) == Sum(rows, TurnsOfModel(k))
  {
  }

  /** Adding to one row adds to the sums and to the row's key. */
  lemma PostedRow(rows: seq<Row>, i: nat, credits: real, usd: real, share: real)
    requires i < |rows|
    ensures var r := rows[i];
            var posted := rows[i := r.(credits := r.credits + credits, usd := r.usd + usd, share := r.share + share)];
            && Sum(posted, Credits) == Sum(rows, Credits) + credits
            && Sum(posted, Usd) == Sum(rows, Usd) + usd
            && Sum(posted, ShareOf) == Sum(rows, ShareOf) + share
            && Sum(posted, TurnsOf) == Sum(rows, TurnsOf)
            && forall k ::
                 && Sum(posted, KeyedShare(k)) == Sum(rows, KeyedShare(k)) + (if k == r.key then share else 0.0)
                 && Sum(posted, KeyedCredits(k)) == Sum(rows, KeyedCredits(k)) + (if k == r.key then credits else 0.0)
  {
    var r := rows[i];
    var r' := r.(credits := r.credits + credits, usd := r.usd + usd, share := r.share + share);
    SumUpdate(rows, i, r', Credits);
    SumUpdate(rows, i, r', Usd);
    SumUpdate(rows, i, r', ShareOf);
    SumUpdate(rows, i, r', TurnsOf);
    forall k
      ensures Sum(rows[i := r'], KeyedShare(k)) == Sum(rows, KeyedShare(k)) + (if k == r.key then share else 0.0)
      ensures Sum(rows[i := r'], KeyedCredits(k)) == Sum(rows, KeyedCredits(k)) + (if k == r.key then credits else 0.0)
    {
      SumUpdate(rows, i, r', KeyedShare(k));
      SumUpdate(rows, i, r', KeyedCredits(k));
    }
  }

  // ----- apportioning one day -----

  /** One entry's fraction of its day: its percentage over all positive percentages, nothing if it is not positive. */
  function Fraction(d: Day, m: Share): real {
    if m.percent > 0.0 && Total(d) > 0.0 then m.percent / Total(d) else 0.0
  }

  function FractionOf(d: Day): Share -> real {
    (m: Share) => Fraction(d, m)
  }

  function CreditsOf(d: Day): Share -> real {
    (m: Share) => Fraction(d, m) * d.credits
  }

  function UsdOf(d: Day, perUsd: real): Share -> real
    requires perUsd != 0.0
  {
    (m: Share) => Fraction(d, m) * d.credits / perUsd
  }

  function KeyFractionOf(d: Day, key: string): Share -> real {
    (m: Share) => if ShareKey(m) == key then Fraction(d, m) else 0.0
  }

  function KeyCreditsOf(d: Day, key: string): Share -> real {
    (m: Share) => if ShareKey(m) == key then Fraction(d, m) * d.credits else 0.0
  }

  /** The credits a day hands out: all of them if it has a positive share, none otherwise. */
  function Apportioned(d: Day): real {
    if Total(d) > 0.0 then d.credits else 0.0
  }

  function HasPositiveShare(d: Day): real {
    if Total(d) > 0.0 then 1.0 else 0.0
  }

  lemma {:induction false} SumScaled<T>(xs: seq<T>, f: T -> real, g: T -> real, c: real)
    requires forall x :: x in xs ==> f(x) * c == g(x)
    ensures Sum(xs, f) * c == Sum(xs, g)
    decreases |xs|
  {
    if xs != [] {
      SumScaled(xs[..|xs| - 1], f, g, c);
    }
  }

  lemma QuotientOfSum(a: real, b: real, c: real)
    requires c != 0.0
    ensures (a + b) / c == a / c + b / c
  {
  }

  lemma {:induction false} SumDivided<T>(xs: seq<T>, f: T -> real, g: T -> real, c: real)
    requires c != 0.0
    requires forall x :: x in xs ==> f(x) / c == g(x)
    ensures Sum(xs, f) / c == Sum(xs, g)
    decreases |xs|
  {
    if xs != [] {
      var n := |xs| - 1;
      SumDivided(xs[..n], f, g, c);
      QuotientOfSum(Sum(xs[..n], f), f(xs[n]), c);
    }
  }

  /** A day's fractions add up to one. */
  lemma FractionsAddUp(d: Day)
    ensures Sum(d.shares, FractionOf(d)) == HasPositiveShare(d)
  {
    PositiveSum(d.shares);
    if Total(d) > 0.0 {
      SumDivided(d.shares, PositivePercent, FractionOf(d), Total(d));
      assert Total(d) / Total(d) == 1.0;
    } else {
      SumScaled(d.shares, PositivePercent, FractionOf(d), 0.0);
    }
  }

  /** A day's apportioned credits add up to its credits. */
  lemma CreditsAddUp(d: Day, perUsd: real)
    requires perUsd != 0.0
    ensures Sum(d.shares, CreditsOf(d)) == Apportioned(d)
    ensures Sum(d.shares, UsdOf(d, perUsd)) == Apportioned(d) / perUsd
  {
    FractionsAddUp(d);
    SumScaled(d.shares, FractionOf(d), CreditsOf(d), d.credits);
    SumDivided(d.shares, CreditsOf(d), UsdOf(d, perUsd), perUsd);
  }

  /** What a day's entries `shares` have added to the table. */
  ghost predicate Posted(was: seq<Row>, rows: seq<Row>, d: Day, shares: seq<Share>, perUsd: real)
    requires perUsd != 0.0
  {
    && Sum(rows, Credits) == Sum(was, Credits) + Sum(shares, CreditsOf(d))
    && Sum(rows, Usd) == Sum(was, Usd) + Sum(shares, UsdOf(d, perUsd))
    && Sum(rows, ShareOf) == Sum(was, ShareOf) + Sum(shares, FractionOf(d))
    && Sum(rows, TurnsOf) == Sum(was, TurnsOf)
    && (forall k :: Sum(rows, KeyedShare(k)) == Sum(was, KeyedShare(k)) + Sum(shares, KeyFractionOf(d, k)))
    && (forall k :: Sum(rows, KeyedCredits(k)) == Sum(was, KeyedCredits(k)) + Sum(shares, KeyCreditsOf(d, k)))
  }

  /** `rows` is `before` with one entry's fraction and amounts added to row `i`. */
  ghost predicate RowPosted(before: seq<Row>, rows: seq<Row>, i: nat, d: Day, m: Share, perUsd: real)
    requires perUsd != 0.0
  {
    && i < |before| && before[i].key == ShareKey(m)
    && rows == before[i := before[i].(credits := before[i].credits + CreditsOf(d)(m),
                                      usd := before[i].usd + UsdOf(d, perUsd)(m),
                                      share := before[i].share + FractionOf(d)(m))]
  }

  lemma PostingForKey(before: seq<Row>, rows: seq<Row>, i: nat, d: Day, shares: seq<Share>, m: Share, perUsd: real,
                      k: string)
    requires perUsd != 0.0 && RowPosted(before, rows, i, d, m, perUsd)
    ensures Sum(rows, KeyedShare(k)) - Sum(before, KeyedShare(k))
            == Sum(shares + [m], KeyFractionOf(d, k)) - Sum(shares, KeyFractionOf(d, k))
    ensures Sum(rows, KeyedCredits(k)) - Sum(before, KeyedCredits(k))
            == Sum(shares + [m], KeyCreditsOf(d, k)) - Sum(shares, KeyCreditsOf(d, k))
  {
    PostedRow(before, i, CreditsOf(d)(m), UsdOf(d, perUsd)(m), FractionOf(d)(m));
    SumSnoc(shares, m, KeyFractionOf(d, k));
    SumSnoc(shares, m, KeyCreditsOf(d, k));
  }

  lemma PostingOneShare(was: seq<Row>, before: seq<Row>, rows: seq<Row>, i: nat, d: Day, shares: seq<Share>, m: Share,
                        perUsd: real)
    requires perUsd != 0.0
    requires Posted(was, before, d, shares, perUsd) && RowPosted(before, rows, i, d, m, perUsd)
    ensures Posted(was, rows, d, shares + [m], perUsd)
  {
    forall k
      ensures Sum(rows, KeyedShare(k)) == Sum(was, KeyedShare(k)) + Sum(shares + [m], KeyFractionOf(d, k))
      ensures Sum(rows, KeyedCredits(k)) == Sum(was, KeyedCredits(k)) + Sum(shares + [m], KeyCreditsOf(d, k))
    {
      PostingForKey(before, rows, i, d, shares, m, perUsd, k);
    }
    PostedRow(before, i, CreditsOf(d)(m), UsdOf(d, perUsd)(m), FractionOf(d)(m));
    SumSnoc(shares, m, CreditsOf(d));
    SumSnoc(shares, m, UsdOf(d, perUsd));
    SumSnoc(shares, m, FractionOf(d));
  }

  lemma SkippingOneShare(was: seq<Row>, rows: seq<Row>, d: Day, shares: seq<Share>, m: Share, perUsd: real)
    requires perUsd != 0.0 && m.percent <= 0.0
    requires Posted(was, rows, d, shares, perUsd)
    ensures Posted(was, rows, d, shares + [m], perUsd)
  {
  }

  method TotalPercent(shares: seq<Share>) returns (total: real)
    ensures total == Sum(shares, PositivePercent)
  {
    total := 0.0;
    for n := 0 to |shares|
      invariant total == Sum(shares[..n], PositivePercent)
    {
      assert shares[..n + 1] == shares[..n] + [shares[n]];
      SumSnoc(shares[..n], shares[n], PositivePercent);
      total := total + if shares[n].percent > 0.0 then shares[n].percent else 0.0;
    }
    assert shares[..|shares|] == shares;
  }

  /** A row that is found or created empty does not change what has been posted. */
  lemma CreationPostsNothing(was: seq<Row>, before: seq<Row>, added: seq<Row>, d: Day, shares: seq<Share>, perUsd: real,
                             key: string, model: string, speed: string)
    requires perUsd != 0.0 && Posted(was, before, d, shares, perUsd)
    requires added == before || added == before + [NewRow(key, model, speed)]
    ensures Posted(was, added, d, shares, perUsd)
  {
  }

  method Amounts(d: Day, m: Share, total: real, perUsd: real) returns (share: real, credits: real, usd: real)
    requires perUsd != 0.0 && total == Total(d) > 0.0 && m.percent > 0.0
    ensures share == FractionOf(d)(m) && credits == CreditsOf(d)(m) && usd == UsdOf(d, perUsd)(m) == credits / perUsd
  {
    share := m.percent / total;
    credits := share * d.credits;
    usd := credits / perUsd;
  }

  /** One row moved to a new amount, with its dollars: the table is still one. */
  lemma PostingKeepsTable(rows: seq<Row>, i: nat, share: real, credits: real, perUsd: real, plain: bool)
    requires perUsd != 0.0 && Table(rows, perUsd, plain) && i < |rows|
    ensures var r := rows[i];
            Table(rows[i := r.(credits := r.credits + credits, usd := r.usd + credits / perUsd,
                               share := r.share + share)],
                  perUsd, plain)
  {
  }

  /** A row of its own for a share, if it has none yet. */
  method ShareRow(before: seq<Row>, m: Share, perUsd: real, ghost plain: bool) returns (added: seq<Row>, i: nat)
    requires perUsd != 0.0 && Table(before, perUsd, plain) && (plain ==> ' ' !in SpeedName(m))
    ensures Table(added, perUsd, plain) && i < |added| && added[i].key == ShareKey(m)
    ensures added == before || added == before + [NewRow(ShareKey(m), ModelName(m), SpeedName(m))]
    ensures Names(added) == if KnowsKey(Names(before), ShareKey(m)) then Names(before)
                            else Names(before) + [Name(ModelName(m), SpeedName(m))]
  {
    added, i := GetOrAdd(before, ShareKey(m), ModelName(m), SpeedName(m));
    assert 0.0 / perUsd == 0.0;
    KnownKeys(before, perUsd, plain, ShareKey(m));
    if |added| == |before| {
      assert before[i].key == ShareKey(m);
    }
  }

  lemma KnownKeys(rows: seq<Row>, perUsd: real, plain: bool, key: string)
    requires perUsd != 0.0 && Table(rows, perUsd, plain)
    ensures KnowsKey(Names(rows), key) <==> exists i :: 0 <= i < |rows| && rows[i].key == key
  {
    if i :| 0 <= i < |rows| && rows[i].key == key {
      assert Names(rows)[i].Key() == key;
    }
  }

  ghost predicate NoTurns(rows: seq<Row>) {
    forall i :: 0 <= i < |rows| ==> rows[i].turns == 0.0
  }

  /** The table `was` after some of a day's entries. */
  ghost predicate Progress(was: seq<Row>, rows: seq<Row>, d: Day, shares: seq<Share>, perUsd: real, plain: bool)
    requires perUsd != 0.0
  {
    && Table(rows, perUsd, plain) && NoTurns(rows) && Posted(was, rows, d, shares, perUsd)
    && Names(rows) == WithEntries(Names(was), shares)
  }

  lemma CreationKeepsTable(before: seq<Row>, added: seq<Row>, perUsd: real, plain: bool, m: Share)
    requires perUsd != 0.0 && Table(before, perUsd, plain) && NoTurns(before)
    requires Table(added, perUsd, plain)
    requires added == before || added == before + [NewRow(ShareKey(m), ModelName(m), SpeedName(m))]
    ensures NoTurns(added)
  {
  }

  lemma EntryKeepsTable(added: seq<Row>, rows: seq<Row>, i: nat, d: Day, m: Share, perUsd: real, plain: bool)
    requires perUsd != 0.0 && Table(added, perUsd, plain) && NoTurns(added)
    requires RowPosted(added, rows, i, d, m, perUsd)
    ensures Table(rows, perUsd, plain) && NoTurns(rows) && Names(rows) == Names(added)
  {
    PostingKeepsTable(added, i, FractionOf(d)(m), CreditsOf(d)(m), perUsd, plain);
  }

  lemma EntryPosted(was: seq<Row>, added: seq<Row>, rows: seq<Row>, i: nat, d: Day, shares: seq<Share>, m: Share,
                    perUsd: real, plain: bool)
    requires perUsd != 0.0 && Table(added, perUsd, plain) && NoTurns(added)
    requires Posted(was, added, d, shares, perUsd) && RowPosted(added, rows, i, d, m, perUsd)
    requires Names(added) == WithEntries(Names(was), shares + [m])
    ensures Progress(was, rows, d, shares + [m], perUsd, plain)
  {
    EntryKeepsTable(added, rows, i, d, m, perUsd, plain);
    PostingOneShare(was, added, rows, i, d, shares, m, perUsd);
  }

  /** The row of an entry, found or created, before anything is added to it. */
  lemma RowIsReady(was: seq<Row>, before: seq<Row>, added: seq<Row>, d: Day, shares: seq<Share>, m: Share,
                   perUsd: real, plain: bool)
    requires perUsd != 0.0 && Progress(was, before, d, shares, perUsd, plain) && m.percent > 0.0
    requires Table(added, perUsd, plain)
    requires added == before || added == before + [NewRow(ShareKey(m), ModelName(m), SpeedName(m))]
    requires Names(added) == if KnowsKey(Names(before), ShareKey(m)) then Names(before)
                             else Names(before) + [Name(ModelName(m), SpeedName(m))]
    ensures NoTurns(added) && Posted(was, added, d, shares, perUsd)
    ensures Names(added) == WithEntries(Names(was), shares + [m])
  {
    CreationKeepsTable(before, added, perUsd, plain, m);
    CreationPostsNothing(was, before, added, d, shares, perUsd, ShareKey(m), ModelName(m), SpeedName(m));
    WithOneMore(Names(was), shares, m);
  }

  /** Adds an entry's fraction, and what it is worth, to a row of its key. */
  method AddAmounts(before: seq<Row>, i: nat, d: Day, m: Share, total: real, perUsd: real) returns (rows: seq<Row>)
    requires perUsd != 0.0 && total == Total(d) > 0.0 && m.percent > 0.0
    requires i < |before| && before[i].key == ShareKey(m)
    ensures RowPosted(before, rows, i, d, m, perUsd)
  {
    var share, credits, usd := Amounts(d, m, total, perUsd);
    var r := before[i];
    rows := before[i := r.(credits := r.credits + credits, usd := r.usd + usd, share := r.share + share)];
  }

  /** Posts one positive entry; its row is created on first use. */
  method PostShare(was: seq<Row>, before: seq<Row>, d: Day, ghost shares: seq<Share>, m: Share, total: real,
                   perUsd: real, ghost plain: bool)
    returns (rows: seq<Row>)
    requires perUsd != 0.0 && total == Total(d) > 0.0 && m.percent > 0.0 && (plain ==> ' ' !in SpeedName(m))
    requires Progress(was, before, d, shares, perUsd, plain)
    ensures Progress(was, rows, d, shares + [m], perUsd, plain)
  {
    var added, i := ShareRow(before, m, perUsd, plain);
    RowIsReady(was, before, added, d, shares, m, perUsd, plain);
    rows := AddAmounts(added, i, d, m, total, perUsd);
    EntryPosted(was, added, rows, i, d, shares, m, perUsd, plain);
  }

  lemma SkippingKeepsProgress(was: seq<Row>, rows: seq<Row>, d: Day, shares: seq<Share>, m: Share, perUsd: real,
                              plain: bool)
    requires perUsd != 0.0 && Progress(was, rows, d, shares, perUsd, plain) && m.percent <= 0.0
    ensures Progress(was, rows, d, shares + [m], perUsd, plain)
  {
    SkippingOneShare(was, rows, d, shares, m, perUsd);
    WithOneMore(Names(was), shares, m);
  }

  /** Posts a day: entries that are not positive are skipped. */
  method AddDay(was: seq<Row>, d: Day, perUsd: real, ghost plain: bool) returns (rows: seq<Row>)
    requires perUsd != 0.0 && Table(was, perUsd, plain) && (plain ==> PlainSpeeds(d.shares)) && NoTurns(was)
    ensures Progress(was, rows, d, d.shares, perUsd, plain)
  {
    var total := TotalPercent(d.shares);
    PositiveSum(d.shares);
    rows := was;
    ghost var posted: seq<Share> := [];
    for n := 0 to |d.shares|
      invariant posted == d.shares[..n] && Progress(was, rows, d, posted, perUsd, plain)
    {
      var m := d.shares[n];
      if m.percent > 0.0 {
        rows := PostShare(was, rows, d, posted, m, total, perUsd, plain);
      } else {
        SkippingKeepsProgress(was, rows, d, posted, m, perUsd, plain);
      }
      posted := posted + [m];
    }
    assert posted == d.shares;
  }
}
