/** `aggregateModels` and `aggregateClients`: nothing is lost and nothing is counted twice. */
module OfficialSplits {
  import opened Official

  // ----- turns -----

  /** Adding turns to one row moves its turns, and no other sum. */
  lemma AddedTurns(rows: seq<Row>, i: nat, turns: real)
    requires i < |rows|
    ensures OnlyTurnsAdded(rows, rows[i := rows[i].(turns := rows[i].turns + turns)], turns)
  {
    var r := rows[i].(turns := rows[i].turns + turns);
    SumUpdate(rows, i, r, TurnsOf);
    SumUpdate(rows, i, r, Credits);
    SumUpdate(rows, i, r, Usd);
    SumUpdate(rows, i, r, ShareOf);
    forall k
      ensures Sum(rows[i := r], KeyedShare(k)) == Sum(rows, KeyedShare(k))
      ensures Sum(rows[i := r], KeyedCredits(k)) == Sum(rows, KeyedCredits(k))
    {
      SumUpdate(rows, i, r, KeyedShare(k));
      SumUpdate(rows, i, r, KeyedCredits(k));
    }
  }

  /** ... and they count for its key and for its model. */
  lemma AddedTurnsOfOne(rows: seq<Row>, i: nat, turns: real, k: string)
    requires i < |rows|
    ensures var more := rows[i := rows[i].(turns := rows[i].turns + turns)];
            && Sum(more, KeyedTurns(k)) == Sum(rows, KeyedTurns(k)) + (if rows[i].key == k then turns else 0.0)
            && Sum(more, TurnsOfModel(k)) == Sum(rows, TurnsOfModel(k)) + (if rows[i].model == k then turns else 0.0)
  {
    var r := rows[i].(turns := rows[i].turns + turns);
    SumUpdate(rows, i, r, KeyedTurns(k));
    SumUpdate(rows, i, r, TurnsOfModel(k));
  }

  /** `rows` is `was` with `turns` more turns and everything else as it was. */
  ghost predicate OnlyTurnsAdded(was: seq<Row>, rows: seq<Row>, turns: real) {
    && Sum(rows, TurnsOf) == Sum(was, TurnsOf) + turns
    && Sum(rows, Credits) == Sum(was, Credits)
    && Sum(rows, Usd) == Sum(was, Usd)
    && Sum(rows, ShareOf) == Sum(was, ShareOf)
    && forall k ::
         && Sum(rows, KeyedShare(k)) == Sum(was, KeyedShare(k))
         && Sum(rows, KeyedCredits(k)) == Sum(was, KeyedCredits(k))
  }

  function ModelTurns(): Day -> real {
    (d: Day) => Sum(d.models, TurnCount)
  }

  /** The turns counted for one model, on one entry and on one day. */
  function NamedTurns(name: string): Turns -> real {
    (m: Turns) => if Or(m.model, "-") == name then m.turns else 0.0
  }

  function DayTurns(name: string): Day -> real {
    (d: Day) => Sum(d.models, NamedTurns(name))
  }

  /** The first row of a model. */
  function FirstOfModel(names: seq<Name>, model: string): seq<Name> {
    if names == [] then [] else if names[0].model == model then [names[0]] else FirstOfModel(names[1..], model)
  }

  /** The key of the row that a model's turns go to: its standard row, else its first row, else a new standard row. */
  function PlaceKey(names: seq<Name>, model: string): string {
    if KnowsKey(names, KeyOf(model, "standard")) then KeyOf(model, "standard")
    else if FirstOfModel(names, model) != [] then FirstOfModel(names, model)[0].Key()
    else KeyOf(model, "standard")
  }

  /** Turns counted under a model's name that belong into the row with key `k`: of a count, an entry, a day. */
  function CountPlaced(names: seq<Name>, k: string): Row -> real {
    (x: Row) => if PlaceKey(names, x.key) == k then x.turns else 0.0
  }

  function EntryPlaced(names: seq<Name>, k: string): Turns -> real {
    (m: Turns) => if PlaceKey(names, Or(m.model, "-")) == k then m.turns else 0.0
  }

  function DayPlaced(names: seq<Name>, k: string): Day -> real {
    (d: Day) => Sum(d.models, EntryPlaced(names, k))
  }

  /** One entry counted: under its name, and for the row its name's turns go to. */
  ghost predicate CountedOne(was: seq<Row>, rows: seq<Row>, m: Turns, names: seq<Name>, k: string) {
    && Sum(rows, KeyedTurns(k)) == Sum(was, KeyedTurns(k)) + NamedTurns(k)(m)
    && Sum(rows, CountPlaced(names, k)) == Sum(was, CountPlaced(names, k)) + EntryPlaced(names, k)(m)
  }

  ghost predicate CountedAll(was: seq<Row>, rows: seq<Row>, models: seq<Turns>, names: seq<Name>) {
    && Sum(rows, TurnsOf) == Sum(was, TurnsOf) + Sum(models, TurnCount)
    && forall k ::
         && Sum(rows, KeyedTurns(k)) == Sum(was, KeyedTurns(k)) + Sum(models, NamedTurns(k))
         && Sum(rows, CountPlaced(names, k)) == Sum(was, CountPlaced(names, k)) + Sum(models, EntryPlaced(names, k))
  }

  ghost predicate CountedDays(rows: seq<Row>, days: seq<Day>, names: seq<Name>) {
    && Sum(rows, TurnsOf) == Sum(days, ModelTurns())
    && forall k ::
         && Sum(rows, KeyedTurns(k)) == Sum(days, DayTurns(k))
         && Sum(rows, CountPlaced(names, k)) == Sum(days, DayPlaced(names, k))
  }

  lemma CountingOne(was: seq<Row>, added: seq<Row>, i: nat, m: Turns, names: seq<Name>, k: string)
    requires i < |added| && added[i].key == Or(m.model, "-")
    requires added == was || added == was + [NewRow(added[i].key, added[i].key, "")]
    ensures CountedOne(was, added[i := added[i].(turns := added[i].turns + m.turns)], m, names, k)
  {
    var name := added[i].key;
    var r := added[i].(turns := added[i].turns + m.turns);
    NewRowHasNoTurns(was, name, name, "");
    SumUpdate(added, i, r, KeyedTurns(k));
    SumUpdate(added, i, r, CountPlaced(names, k));
    SumSnoc(was, NewRow(name, name, ""), CountPlaced(names, k));
  }

  method CountModel(was: seq<Row>, m: Turns, ghost names: seq<Name>) returns (rows: seq<Row>)
    requires DistinctKeys(was)
    ensures DistinctKeys(rows) && Sum(rows, TurnsOf) == Sum(was, TurnsOf) + m.turns
    ensures forall k :: CountedOne(was, rows, m, names, k)
  {
    var name := Or(m.model, "-");
    var added, i := GetOrAdd(was, name, name, "");
    NewRowAddsNothing(was, name, name, "");
    AddedTurns(added, i, m.turns);
    rows := added[i := added[i].(turns := added[i].turns + m.turns)];
    forall k
      ensures CountedOne(was, rows, m, names, k)
    {
      CountingOne(was, added, i, m, names, k);
    }
  }

  lemma CountingOneMore(was: seq<Row>, mid: seq<Row>, rows: seq<Row>, models: seq<Turns>, m: Turns, names: seq<Name>)
    requires CountedAll(was, mid, models, names)
    requires Sum(rows, TurnsOf) == Sum(mid, TurnsOf) + m.turns && forall k :: CountedOne(mid, rows, m, names, k)
    ensures CountedAll(was, rows, models + [m], names)
  {
    SumSnoc(models, m, TurnCount);
    forall k
      ensures Sum(rows, KeyedTurns(k)) == Sum(was, KeyedTurns(k)) + Sum(models + [m], NamedTurns(k))
      ensures Sum(rows, CountPlaced(names, k))
              == Sum(was, CountPlaced(names, k)) + Sum(models + [m], EntryPlaced(names, k))
    {
      assert CountedOne(mid, rows, m, names, k);
      SumSnoc(models, m, NamedTurns(k));
      SumSnoc(models, m, EntryPlaced(names, k));
    }
  }

  method CountModels(was: seq<Row>, models: seq<Turns>, ghost names: seq<Name>) returns (rows: seq<Row>)
    requires DistinctKeys(was)
    ensures DistinctKeys(rows) && CountedAll(was, rows, models, names)
  {
    rows := was;
    ghost var counted: seq<Turns> := [];
    for n := 0 to |models|
      invariant counted == models[..n] && DistinctKeys(rows) && CountedAll(was, rows, counted, names)
    {
      ghost var mid := rows;
      rows := CountModel(rows, models[n], names);
      CountingOneMore(was, mid, rows, counted, models[n], names);
      counted := counted + [models[n]];
    }
    assert counted == models;
  }

  lemma CountingOneMoreDay(was: seq<Row>, rows: seq<Row>, days: seq<Day>, d: Day, names: seq<Name>)
    requires CountedDays(was, days, names) && CountedAll(was, rows, d.models, names)
    ensures CountedDays(rows, days + [d], names)
  {
    SumSnoc(days, d, ModelTurns());
    forall k
      ensures Sum(rows, KeyedTurns(k)) == Sum(days + [d], DayTurns(k))
      ensures Sum(rows, CountPlaced(names, k)) == Sum(days + [d], DayPlaced(names, k))
    {
      SumSnoc(days, d, DayTurns(k));
      SumSnoc(days, d, DayPlaced(names, k));
    }
  }

  /**
   Turns per model: a table whose rows are keyed by the model alone.  `names` are the rows that the turns will be
   placed in, if there are any.
   */
  method TurnsByModel(days: seq<Day>, ghost names: seq<Name>) returns (rows: seq<Row>)
    ensures DistinctKeys(rows) && CountedDays(rows, days, names)
  {
    rows := [];
    ghost var counted: seq<Day> := [];
    for n := 0 to |days|
      invariant counted == days[..n] && DistinctKeys(rows) && CountedDays(rows, counted, names)
    {
      ghost var was := rows;
      rows := CountModels(rows, days[n].models, names);
      CountingOneMoreDay(was, rows, counted, days[n], names);
      counted := counted + [days[n]];
    }
    assert counted == days;
  }

  method FindModel(rows: seq<Row>, model: string) returns (i: nat)
    ensures i <= |rows|
    ensures i < |rows| ==> rows[i].model == model && forall k :: 0 <= k < i ==> rows[k].model != model
    ensures i == |rows| ==> forall k :: 0 <= k < |rows| ==> rows[k].model != model
  {
    i := 0;
    while i < |rows| && rows[i].model != model
      invariant i <= |rows|
      invariant forall k :: 0 <= k < i ==> rows[k].model != model
    {
      i := i + 1;
    }
  }

  ghost predicate HasKey(rows: seq<Row>, key: string) {
    exists k :: 0 <= k < |rows| && rows[k].key == key
  }

  ghost predicate HasModel(rows: seq<Row>, model: string) {
    exists k :: 0 <= k < |rows| && rows[k].model == model
  }

  /** Where a model's turns go: its standard row, else its first row, else a new standard row. */
  ghost predicate Place(was: seq<Row>, base: seq<Row>, model: string, i: nat) {
    var standard := KeyOf(model, "standard");
    && i < |base|
    && if HasKey(was, standard) then base == was && was[i].key == standard
       else if HasModel(was, model) then
         base == was && was[i].model == model && forall k :: 0 <= k < i ==> was[k].model != model
       else base == was + [NewRow(standard, model, "standard")] && i == |was|
  }

  lemma {:induction false} FirstOfModelIsFirst(names: seq<Name>, model: string)
    ensures FirstOfModel(names, model) == [] <==> forall k :: 0 <= k < |names| ==> names[k].model != model
    ensures forall i :: 0 <= i < |names| && names[i].model == model
                        && (forall k :: 0 <= k < i ==> names[k].model != model) ==>
              FirstOfModel(names, model) == [names[i]]
    decreases |names|
  {
    if names != [] && names[0].model != model {
      FirstOfModelIsFirst(names[1..], model);
      forall i | 0 <= i < |names| && names[i].model == model && (forall k :: 0 <= k < i ==> names[k].model != model)
        ensures FirstOfModel(names, model) == [names[i]]
      {
        assert names[1..][i - 1] == names[i];
        assert forall k :: 0 <= k < i - 1 ==> names[1..][k] == names[k + 1];
      }
    }
  }

  lemma PlaceHasKey(was: seq<Row>, base: seq<Row>, model: string, i: nat, perUsd: real, plain: bool)
    requires perUsd != 0.0 && Table(was, perUsd, plain) && Table(base, perUsd, plain) && Place(was, base, model, i)
    ensures base[i].key == PlaceKey(Names(was), model)
  {
    KnownKeys(was, perUsd, plain, KeyOf(model, "standard"));
    FirstOfModelIsFirst(Names(was), model);
    if !HasKey(was, KeyOf(model, "standard")) {
      if HasModel(was, model) {
        assert Names(was)[i].model == model;
      } else {
        assert forall k :: 0 <= k < |was| ==> Names(was)[k].model == was[k].model;
      }
    }
  }

  method FindPlace(was: seq<Row>, model: string, perUsd: real, ghost plain: bool) returns (base: seq<Row>, i: nat)
    requires perUsd != 0.0 && Table(was, perUsd, plain)
    ensures Table(base, perUsd, plain) && Place(was, base, model, i)
    ensures base == was || base == was + [NewRow(KeyOf(model, "standard"), model, "standard")]
    ensures plain ==> base[i].model == model
    ensures base[i].key == PlaceKey(Names(was), model)
  {
    var standard := KeyOf(model, "standard");
    base := was;
    i := Find(was, standard);
    if i < |was| {
      if plain {
        KeysAreTold(was[i].model, was[i].speed, model, "standard");
      }
      PlaceHasKey(was, base, model, i, perUsd, plain);
      return;
    }
    i := FindModel(was, model);
    if i == |was| {
      base := was + [NewRow(standard, model, "standard")];
      assert 0.0 / perUsd == 0.0;
    }
    PlaceHasKey(was, base, model, i, perUsd, plain);
  }

  /**
   What two tables differ in after turns were added: the sums, the turns of the rows they belong into, and each
   model's turns if no speed contains a space.  `names` are the rows from which the places were decided.
   */
  ghost predicate TurnsWent(was: seq<Row>, rows: seq<Row>, turns: real, plain: bool, byModel: seq<Row>,
                            names: seq<Name>)
  {
    && OnlyTurnsAdded(was, rows, turns)
    && (forall k :: Sum(rows, KeyedTurns(k)) == Sum(was, KeyedTurns(k)) + Sum(byModel, CountPlaced(names, k)))
    && (plain ==> forall k :: Sum(rows, TurnsOfModel(k)) == Sum(was, TurnsOfModel(k)) + Sum(byModel, KeyedTurns(k)))
  }

  function WithTurns(base: seq<Row>, i: nat, turns: real): seq<Row>
    requires i < |base|
  {
    base[i := base[i].(turns := base[i].turns + turns)]
  }

  lemma SumOfOne(x: Row, f: Row -> real)
    ensures Sum([x], f) == f(x)
  {
    assert [x][..0] == [];
  }

  lemma PlacingForKey(was: seq<Row>, base: seq<Row>, i: nat, x: Row, names: seq<Name>, k: string)
    requires i < |base| && base[i].key == PlaceKey(names, x.key)
    requires base == was || base == was + [NewRow(KeyOf(x.key, "standard"), x.key, "standard")]
    ensures Sum(WithTurns(base, i, x.turns), KeyedTurns(k)) == Sum(was, KeyedTurns(k)) + Sum([x], CountPlaced(names, k))
    ensures base[i].model == x.key ==>
              Sum(WithTurns(base, i, x.turns), TurnsOfModel(k)) == Sum(was, TurnsOfModel(k)) + Sum([x], KeyedTurns(k))
  {
    NewRowHasNoTurns(was, KeyOf(x.key, "standard"), x.key, "standard");
    AddedTurnsOfOne(base, i, x.turns, k);
    SumOfOne(x, CountPlaced(names, k));
    SumOfOne(x, KeyedTurns(k));
  }

  lemma PlacingTurns(was: seq<Row>, base: seq<Row>, i: nat, plain: bool, x: Row, names: seq<Name>)
    requires i < |base| && (plain ==> base[i].model == x.key) && base[i].key == PlaceKey(names, x.key)
    requires base == was || base == was + [NewRow(KeyOf(x.key, "standard"), x.key, "standard")]
    ensures TurnsWent(was, WithTurns(base, i, x.turns), x.turns, plain, [x], names)
  {
    NewRowAddsNothing(was, KeyOf(x.key, "standard"), x.key, "standard");
    AddedTurns(base, i, x.turns);
    forall k
      ensures Sum(WithTurns(base, i, x.turns), KeyedTurns(k))
              == Sum(was, KeyedTurns(k)) + Sum([x], CountPlaced(names, k))
      ensures plain ==> Sum(WithTurns(base, i, x.turns), TurnsOfModel(k))
                        == Sum(was, TurnsOfModel(k)) + Sum([x], KeyedTurns(k))
    {
      PlacingForKey(was, base, i, x, names, k);
    }
  }

  lemma TurnsWentOn(was: seq<Row>, mid: seq<Row>, rows: seq<Row>, plain: bool, byModel: seq<Row>, x: Row,
                    names: seq<Name>)
    requires TurnsWent(was, mid, Sum(byModel, TurnsOf), plain, byModel, names)
    requires TurnsWent(mid, rows, x.turns, plain, [x], names)
    ensures TurnsWent(was, rows, Sum(byModel + [x], TurnsOf), plain, byModel + [x], names)
  {
    SumSnoc(byModel, x, TurnsOf);
    forall k
      ensures Sum(rows, KeyedTurns(k)) == Sum(was, KeyedTurns(k)) + Sum(byModel + [x], CountPlaced(names, k))
      ensures plain ==>
                Sum(rows, TurnsOfModel(k)) == Sum(was, TurnsOfModel(k)) + Sum(byModel + [x], KeyedTurns(k))
    {
      SumConcat(byModel, [x], CountPlaced(names, k));
      SumConcat(byModel, [x], KeyedTurns(k));
    }
  }

  /** The rows are the named ones, and new standard rows of models in `placed`. */
  ghost predicate Grown(rows: seq<Row>, names: seq<Name>, placed: seq<Row>) {
    && names <= Names(rows)
    && forall k :: |names| <= k < |rows| ==>
         rows[k].speed == "standard" && HasKey(placed, rows[k].model)
  }

  lemma {:induction false} FirstOfModelPrefix(names: seq<Name>, more: seq<Name>, model: string)
    requires forall k :: 0 <= k < |more| ==> more[k].model != model
    ensures FirstOfModel(names + more, model) == FirstOfModel(names, model)
    decreases |names|
  {
    if names == [] {
      assert names + more == more;
      FirstOfModelIsFirst(more, model);
    } else {
      assert (names + more)[1..] == names[1..] + more;
      FirstOfModelPrefix(names[1..], more, model);
    }
  }

  lemma OtherKey(name: Name, model: string)
    requires name.speed == "standard" && name.model != model
    ensures name.Key() != KeyOf(model, "standard")
  {
    if name.Key() == KeyOf(model, "standard") {
      KeysAreTold(name.model, name.speed, model, "standard");
    }
  }

  /** New standard rows of other models do not change where a model's turns go. */
  lemma OthersDoNotMovePlace(rows: seq<Row>, names: seq<Name>, placed: seq<Row>, model: string)
    requires Grown(rows, names, placed) && forall j :: 0 <= j < |placed| ==> placed[j].key != model
    ensures PlaceKey(Names(rows), model) == PlaceKey(names, model)
  {
    var all := Names(rows);
    var more := all[|names|..];
    assert all == names + more;
    forall k | 0 <= k < |more|
      ensures more[k].model != model && more[k].Key() != KeyOf(model, "standard")
    {
      assert more[k] == all[|names| + k];
      OtherKey(more[k], model);
    }
    FirstOfModelPrefix(names, more, model);
    KnownInPrefix(names, more, KeyOf(model, "standard"));
  }

  lemma KnownInPrefix(names: seq<Name>, more: seq<Name>, key: string)
    requires forall k :: 0 <= k < |more| ==> more[k].Key() != key
    ensures KnowsKey(names + more, key) <==> KnowsKey(names, key)
  {
    if i :| 0 <= i < |names| && names[i].Key() == key {
      assert (names + more)[i].Key() == key;
    }
  }

  /** A model's turns, as `x` counted them, are added in one place. */
  method PlaceTurns(was: seq<Row>, x: Row, perUsd: real, ghost plain: bool, ghost names: seq<Name>,
                    ghost placed: seq<Row>)
    returns (rows: seq<Row>)
    requires perUsd != 0.0 && Table(was, perUsd, plain)
    requires Grown(was, names, placed) && forall j :: 0 <= j < |placed| ==> placed[j].key != x.key
    ensures Table(rows, perUsd, plain) && TurnsWent(was, rows, x.turns, plain, [x], names)
    ensures Grown(rows, names, placed + [x])
    ensures exists base: seq<Row>, i: nat :: Place(was, base, x.key, i) && rows == WithTurns(base, i, x.turns)
  {
    var base, i := FindPlace(was, x.key, perUsd, plain);
    OthersDoNotMovePlace(was, names, placed, x.key);
    PlacingTurns(was, base, i, plain, x, names);
    rows := WithTurns(base, i, x.turns);
    GrownMore(was, base, rows, i, x, names, placed);
  }

  lemma GrownMore(was: seq<Row>, base: seq<Row>, rows: seq<Row>, i: nat, x: Row, names: seq<Name>, placed: seq<Row>)
    requires Grown(was, names, placed) && i < |base| && rows == WithTurns(base, i, x.turns)
    requires base == was || base == was + [NewRow(KeyOf(x.key, "standard"), x.key, "standard")]
    ensures Grown(rows, names, placed + [x])
  {
    assert Names(rows) == Names(base) && Names(was) <= Names(base);
    var more := placed + [x];
    assert more[|placed|].key == x.key;
    forall k | |names| <= k < |rows|
      ensures rows[k].speed == "standard" && HasKey(more, rows[k].model)
    {
      assert rows[k].model == base[k].model && rows[k].speed == base[k].speed;
      if k < |was| {
        var j :| 0 <= j < |placed| && placed[j].key == was[k].model;
        assert more[j].key == rows[k].model;
      }
    }
  }

  method PlaceAllTurns(was: seq<Row>, byModel: seq<Row>, perUsd: real, ghost plain: bool) returns (rows: seq<Row>)
    requires perUsd != 0.0 && Table(was, perUsd, plain) && DistinctKeys(byModel)
    ensures Table(rows, perUsd, plain) && TurnsWent(was, rows, Sum(byModel, TurnsOf), plain, byModel, Names(was))
  {
    rows := was;
    ghost var placed: seq<Row> := [];
    for n := 0 to |byModel|
      invariant placed == byModel[..n] && Table(rows, perUsd, plain) && Grown(rows, Names(was), placed)
      invariant TurnsWent(was, rows, Sum(placed, TurnsOf), plain, placed, Names(was))
    {
      ghost var mid := rows;
      rows := PlaceTurns(rows, byModel[n], perUsd, plain, Names(was), placed);
      TurnsWentOn(was, mid, rows, plain, placed, byModel[n], Names(was));
      placed := placed + [byModel[n]];
    }
    assert placed == byModel;
  }

  // ----- order -----

  /** Must `x` stand before `y`? */
  predicate Precedes(x: Row, y: Row, first: Row -> real) {
    first(x) > first(y) || (first(x) == first(y) && x.turns > y.turns)
  }

  ghost predicate SortedBy(rows: seq<Row>, first: Row -> real) {
    forall i, j :: 0 <= i < j < |rows| ==> !Precedes(rows[j], rows[i], first)
  }

  /** Puts a row behind every row it does not have to precede. */
  method InsertRow(sorted: seq<Row>, x: Row, first: Row -> real) returns (r: seq<Row>)
    requires SortedBy(sorted, first)
    ensures SortedBy(r, first) && multiset(r) == multiset(sorted) + multiset{x}
    ensures DistinctKeys(sorted) && (forall y :: y in sorted ==> y.key != x.key) ==> DistinctKeys(r)
  {
    var at := |sorted|;
    while at > 0 && Precedes(x, sorted[at - 1], first)
      invariant 0 <= at <= |sorted|
      invariant forall k :: at <= k < |sorted| ==> Precedes(x, sorted[k], first)
    {
      at := at - 1;
    }
    forall k | 0 <= k < at
      ensures !Precedes(x, sorted[k], first)
    {
      assert k < at - 1 ==> !Precedes(sorted[at - 1], sorted[k], first);
    }
    InsertionStaysSorted(sorted, at, x, first);
    InsertionKeepsKeys(sorted, at, x);
    assert sorted == sorted[..at] + sorted[at..];
    r := sorted[..at] + [x] + sorted[at..];
  }

  lemma InsertionKeepsKeys(sorted: seq<Row>, at: nat, x: Row)
    requires at <= |sorted|
    ensures DistinctKeys(sorted) && (forall y :: y in sorted ==> y.key != x.key) ==>
              DistinctKeys(sorted[..at] + [x] + sorted[at..])
  {
  }

  lemma InsertionStaysSorted(sorted: seq<Row>, at: nat, x: Row, first: Row -> real)
    requires SortedBy(sorted, first) && at <= |sorted|
    requires forall k :: 0 <= k < at ==> !Precedes(x, sorted[k], first)
    requires forall k :: at <= k < |sorted| ==> Precedes(x, sorted[k], first)
    ensures SortedBy(sorted[..at] + [x] + sorted[at..], first)
  {
  }

  /** Largest first, with the same rows. */
  method Sort(rows: seq<Row>, first: Row -> real) returns (sorted: seq<Row>)
    ensures SortedBy(sorted, first) && multiset(sorted) == multiset(rows)
    ensures DistinctKeys(rows) ==> DistinctKeys(sorted)
  {
    sorted := [];
    for n := 0 to |rows|
      invariant SortedBy(sorted, first) && multiset(sorted) == multiset(rows[..n])
      invariant DistinctKeys(rows) ==> DistinctKeys(sorted)
    {
      assert rows[..n + 1] == rows[..n] + [rows[n]];
      SortingKeepsRows(sorted, rows[..n]);
      sorted := InsertRow(sorted, rows[n], first);
    }
    assert rows[..|rows|] == rows;
  }

  // ----- the two splits -----

  datatype ModelSplit =
    ModelSplit(rows: seq<Row>, hasBreakdown: bool, hasCost: bool, breakdownDays: nat, totalDays: nat)

  function WithBreakdown(days: seq<Day>): seq<Day> {
    if days == [] then []
    else WithBreakdown(days[..|days| - 1]) + if days[|days| - 1].shares != [] then [days[|days| - 1]] else []
  }

  function ApportionedOf(): Day -> real {
    (d: Day) => Apportioned(d)
  }

  function PositiveDays(): Day -> real {
    (d: Day) => HasPositiveShare(d)
  }

  function KeyFraction(key: string): Day -> real {
    (d: Day) => Sum(d.shares, KeyFractionOf(d, key))
  }

  function KeyCredit(key: string): Day -> real {
    (d: Day) => Sum(d.shares, KeyCreditsOf(d, key))
  }

  /** The table after some breakdown days. */
  ghost predicate Apportions(rows: seq<Row>, days: seq<Day>, perUsd: real)
    requires perUsd != 0.0
  {
    && Sum(rows, Credits) == Sum(days, ApportionedOf())
    && Sum(rows, Usd) == Sum(days, ApportionedOf()) / perUsd
    && Sum(rows, ShareOf) == Sum(days, PositiveDays())
    && (forall k :: Sum(rows, KeyedShare(k)) == Sum(days, KeyFraction(k)))
    && (forall k :: Sum(rows, KeyedCredits(k)) == Sum(days, KeyCredit(k)))
  }

  lemma OneMoreDay(was: seq<Row>, rows: seq<Row>, days: seq<Day>, d: Day, perUsd: real)
    requires perUsd != 0.0 && Apportions(was, days, perUsd) && Posted(was, rows, d, d.shares, perUsd)
    ensures Apportions(rows, days + [d], perUsd)
  {
    FractionsAddUp(d);
    CreditsAddUp(d, perUsd);
    SumSnoc(days, d, ApportionedOf());
    SumSnoc(days, d, PositiveDays());
    QuotientOfSum(Sum(days, ApportionedOf()), Apportioned(d), perUsd);
    forall k
      ensures Sum(rows, KeyedShare(k)) == Sum(days + [d], KeyFraction(k))
      ensures Sum(rows, KeyedCredits(k)) == Sum(days + [d], KeyCredit(k))
    {
      SumSnoc(days, d, KeyFraction(k));
      SumSnoc(days, d, KeyCredit(k));
    }
  }

  /** No speed of these days contains a space. */
  predicate PlainDays(days: seq<Day>) {
    forall d :: d in days ==> PlainSpeeds(d.shares)
  }

  /** The rows of the days' entries, in order of their first appearance. */
  function Leaders(days: seq<Day>): seq<Name>
    decreases |days|
  {
    if days == [] then [] else WithEntries(Leaders(days[..|days| - 1]), days[|days| - 1].shares)
  }

  method NextDay(was: seq<Row>, d: Day, ghost days: seq<Day>, perUsd: real, ghost plain: bool) returns (rows: seq<Row>)
    requires perUsd != 0.0 && Table(was, perUsd, plain) && NoTurns(was) && Apportions(was, days, perUsd)
    requires (plain ==> PlainSpeeds(d.shares)) && Names(was) == Leaders(days)
    ensures Table(rows, perUsd, plain) && NoTurns(rows) && Apportions(rows, days + [d], perUsd)
    ensures Names(rows) == Leaders(days + [d])
  {
    rows := AddDay(was, d, perUsd, plain);
    OneMoreDay(was, rows, days, d, perUsd);
    assert (days + [d])[..|days|] == days;
  }

  method AddDays(days: seq<Day>, perUsd: real) returns (rows: seq<Row>)
    requires perUsd != 0.0
    ensures Table(rows, perUsd, PlainDays(days)) && Apportions(rows, days, perUsd) && NoTurns(rows)
    ensures Names(rows) == Leaders(days)
  {
    rows := [];
    ghost var done: seq<Day> := [];
    assert Apportions(rows, done, perUsd) && Names(rows) == [];
    for n := 0 to |days|
      invariant done == days[..n] && Table(rows, perUsd, PlainDays(days)) && NoTurns(rows)
      invariant Apportions(rows, done, perUsd) && Names(rows) == Leaders(done)
    {
      assert days[n] in days;
      rows := NextDay(rows, days[n], done, perUsd, PlainDays(days));
      done := done + [days[n]];
    }
    assert done == days;
  }

  lemma {:induction false} NoTurnsNoSum(rows: seq<Row>)
    requires NoTurns(rows)
    ensures Sum(rows, TurnsOf) == 0.0
    ensures forall k :: Sum(rows, TurnsOfModel(k)) == 0.0 && Sum(rows, KeyedTurns(k)) == 0.0
    decreases |rows|
  {
    if rows != [] {
      NoTurnsNoSum(rows[..|rows| - 1]);
    }
  }

  lemma {:induction false} OneRowPerKey(rows: seq<Row>, i: nat)
    requires DistinctKeys(rows) && i < |rows|
    ensures Sum(rows, KeyedShare(rows[i].key)) == rows[i].share
    ensures Sum(rows, KeyedCredits(rows[i].key)) == rows[i].credits
    decreases |rows|
  {
    var n := |rows| - 1;
    if i < n {
      OneRowPerKey(rows[..n], i);
    } else {
      NoRowNothing(rows[..n], rows[i].key);
    }
  }

  lemma {:induction false} NoRowNothing(rows: seq<Row>, key: string)
    requires forall i :: 0 <= i < |rows| ==> rows[i].key != key
    ensures Sum(rows, KeyedShare(key)) == 0.0 && Sum(rows, KeyedCredits(key)) == 0.0
    decreases |rows|
  {
    if rows != [] {
      NoRowNothing(rows[..|rows| - 1], key);
    }
  }

  /** A row says what its key earned over the days: the sum of its daily fractions, and of the credits they carry. */
  ghost predicate SaysItsKey(r: Row, days: seq<Day>, n: nat)
    requires n > 0
  {
    && r.share == Sum(days, KeyFraction(r.key)) / n as real
    && r.credits == Sum(days, KeyCredit(r.key))
  }

  lemma RowSaysItsKey(rows: seq<Row>, days: seq<Day>, i: nat)
    requires DistinctKeys(rows) && i < |rows|
    requires forall k :: Sum(rows, KeyedShare(k)) == Sum(days, KeyFraction(k))
    requires forall k :: Sum(rows, KeyedCredits(k)) == Sum(days, KeyCredit(k))
    ensures rows[i].share == Sum(days, KeyFraction(rows[i].key))
    ensures rows[i].credits == Sum(days, KeyCredit(rows[i].key))
  {
    OneRowPerKey(rows, i);
  }

  /** `out` is `rows` with every share divided by `n`, as far as the sums tell. */
  ghost predicate Averaged(out: seq<Row>, rows: seq<Row>, n: nat)
    requires n > 0
  {
    && Sum(out, ShareOf) == Sum(rows, ShareOf) / n as real
    && Sum(out, Credits) == Sum(rows, Credits)
    && Sum(out, Usd) == Sum(rows, Usd)
    && Sum(out, TurnsOf) == Sum(rows, TurnsOf)
    && forall k ::
         Sum(out, TurnsOfModel(k)) == Sum(rows, TurnsOfModel(k)) && Sum(out, KeyedTurns(k)) == Sum(rows, KeyedTurns(k))
  }

  lemma AveragedSnoc(out: seq<Row>, rows: seq<Row>, x: Row, n: nat)
    requires n > 0 && Averaged(out, rows, n)
    ensures Averaged(out + [x.(share := x.share / n as real)], rows + [x], n)
  {
  }

  /** Every row's share of the breakdown days instead of its sum of daily shares. */
  method Average(rows: seq<Row>, n: nat) returns (out: seq<Row>)
    requires n > 0
    ensures Averaged(out, rows, n) && |out| == |rows|
    ensures forall i :: 0 <= i < |rows| ==> out[i] == rows[i].(share := rows[i].share / n as real)
  {
    out := [];
    ghost var read: seq<Row> := [];
    for i := 0 to |rows|
      invariant read == rows[..i] && Averaged(out, read, n) && |out| == i
      invariant forall k :: 0 <= k < i ==> out[k] == rows[k].(share := rows[k].share / n as real)
    {
      AveragedSnoc(out, read, rows[i], n);
      out := out + [rows[i].(share := rows[i].share / n as real)];
      read := read + [rows[i]];
    }
    assert read == rows;
  }

  lemma {:induction false} PositiveDaysBound(days: seq<Day>)
    ensures 0.0 <= Sum(days, PositiveDays()) <= |days| as real
    decreases |days|
  {
    if days != [] {
      PositiveDaysBound(days[..|days| - 1]);
    }
  }

  /** `hasCost`: does any row cost anything? */
  method AnyCost(rows: seq<Row>) returns (some: bool)
    ensures some <==> exists i :: 0 <= i < |rows| && rows[i].usd > 0.0
  {
    for i := 0 to |rows|
      invariant forall k :: 0 <= k < i ==> rows[k].usd <= 0.0
    {
      if rows[i].usd > 0.0 {
        return true;
      }
    }
    some := false;
  }

  /** What the sorted table of `aggregateModels` adds up to. */
  ghost predicate Conserves(r: ModelSplit, days: seq<Day>, perUsd: real)
    requires perUsd != 0.0 && days != []
  {
    && Sum(r.rows, Credits) == Sum(days, ApportionedOf())
    && Sum(r.rows, Usd) == Sum(days, ApportionedOf()) / perUsd
    && Sum(r.rows, TurnsOf) == Sum(days, ModelTurns())
    && Sum(r.rows, ShareOf) == Sum(days, PositiveDays()) / |days| as real
    && Sum(r.rows, ShareOf) <= 1.0
    && Priced(r.rows, perUsd)
    && (forall key :: Sum(r.rows, KeyedTurns(key)) == Sum(days, DayPlaced(Leaders(days), key)))
    && (PlainDays(days) ==> forall model :: Sum(r.rows, TurnsOfModel(model)) == Sum(days, DayTurns(model)))
  }

  lemma SameSums(xs: seq<Row>, ys: seq<Row>)
    requires multiset(xs) == multiset(ys)
    ensures Sum(xs, Credits) == Sum(ys, Credits) && Sum(xs, Usd) == Sum(ys, Usd)
    ensures Sum(xs, TurnsOf) == Sum(ys, TurnsOf) && Sum(xs, ShareOf) == Sum(ys, ShareOf)
    ensures Sum(xs, Tokens) == Sum(ys, Tokens)
    ensures forall k :: SameByName(xs, ys, k)
  {
    SumOfPermutation(xs, ys, Credits);
    SumOfPermutation(xs, ys, Usd);
    SumOfPermutation(xs, ys, TurnsOf);
    SumOfPermutation(xs, ys, ShareOf);
    SumOfPermutation(xs, ys, Tokens);
    forall k
      ensures SameByName(xs, ys, k)
    {
      SumOfPermutation(xs, ys, TurnsOfModel(k));
      SumOfPermutation(xs, ys, KeyedTurns(k));
      SumOfPermutation(xs, ys, KeyedCredits(k));
      SumOfPermutation(xs, ys, KeyedTokens(k));
    }
  }

  ghost predicate SameByName(xs: seq<Row>, ys: seq<Row>, k: string) {
    && Sum(xs, TurnsOfModel(k)) == Sum(ys, TurnsOfModel(k)) && Sum(xs, KeyedTurns(k)) == Sum(ys, KeyedTurns(k))
    && Sum(xs, KeyedCredits(k)) == Sum(ys, KeyedCredits(k)) && Sum(xs, KeyedTokens(k)) == Sum(ys, KeyedTokens(k))
  }

  lemma SortingKeepsRows(xs: seq<Row>, ys: seq<Row>)
    requires multiset(xs) == multiset(ys)
    ensures forall row :: row in xs <==> row in ys
  {
    forall row
      ensures row in xs <==> row in ys
    {
      assert row in multiset(xs) <==> row in multiset(ys);
    }
  }

  method FilterBreakdown(days: seq<Day>) returns (kept: seq<Day>)
    ensures kept == WithBreakdown(days)
  {
    kept := [];
    for n := 0 to |days|
      invariant kept == WithBreakdown(days[..n])
    {
      assert days[..n + 1][..n] == days[..n];
      if days[n].shares != [] {
        kept := kept + [days[n]];
      }
    }
    assert days[..|days|] == days;
  }

  lemma AtMostWhole(days: seq<Day>)
    requires days != []
    ensures Sum(days, PositiveDays()) / |days| as real <= 1.0
  {
  }

  /** The table of the days that have a breakdown, before it is sorted. */
  method BreakdownTable(kept: seq<Day>, perUsd: real) returns (rows: seq<Row>)
    requires kept != [] && perUsd != 0.0
    ensures Sum(rows, Credits) == Sum(kept, ApportionedOf())
    ensures Sum(rows, Usd) == Sum(kept, ApportionedOf()) / perUsd
    ensures Sum(rows, TurnsOf) == Sum(kept, ModelTurns())
    ensures Sum(rows, ShareOf) == Sum(kept, PositiveDays()) / |kept| as real
    ensures Priced(rows, perUsd)
    ensures forall k :: Sum(rows, KeyedTurns(k)) == Sum(kept, DayPlaced(Leaders(kept), k))
    ensures PlainDays(kept) ==> forall k :: Sum(rows, TurnsOfModel(k)) == Sum(kept, DayTurns(k))
    ensures DistinctKeys(rows)
    ensures forall i :: 0 <= i < |rows| ==> SaysItsKey(rows[i], kept, |kept|)
  {
    var table := AddDays(kept, perUsd);
    NoTurnsNoSum(table);
    var byModel := TurnsByModel(kept, Leaders(kept));
    table := PlaceAllTurns(table, byModel, perUsd, PlainDays(kept));
    rows := Average(table, |kept|);
    forall i | 0 <= i < |rows|
      ensures SaysItsKey(rows[i], kept, |kept|)
    {
      RowSaysItsKey(table, kept, i);
    }
  }

  /**
   `aggregateModels`.  Without any breakdown the table counts each model's turns; with one, every credit of a day
   that has a positive share and every turn of a breakdown day ends up in exactly one row: the credits in the row
   of their model and speed, the turns in the row that `PlaceKey` names, which is a row of their model as long as no
   speed contains a space.
   */
  method AggregateModels(days: seq<Day>, perUsd: real) returns (r: ModelSplit)
    requires perUsd != 0.0
    ensures DistinctKeys(r.rows)
    ensures r.totalDays == |days| && r.breakdownDays == |WithBreakdown(days)|
    ensures r.hasBreakdown <==> WithBreakdown(days) != []
    ensures !r.hasBreakdown ==> !r.hasCost && SortedBy(r.rows, TurnsOf)
    ensures !r.hasBreakdown ==> forall model :: Sum(r.rows, KeyedTurns(model)) == Sum(days, DayTurns(model))
    ensures r.hasBreakdown ==> Conserves(r, WithBreakdown(days), perUsd)
    ensures r.hasBreakdown ==> SortedBy(r.rows, if r.hasCost then Usd else ShareOf)
    ensures r.hasBreakdown ==>
              forall row :: row in r.rows ==> SaysItsKey(row, WithBreakdown(days), |WithBreakdown(days)|)
    ensures r.hasBreakdown ==> (r.hasCost <==> exists i :: 0 <= i < |r.rows| && r.rows[i].usd > 0.0)
  {
    var kept := FilterBreakdown(days);
    if kept == [] {
      var counted := TurnsByModel(days, []);
      var sorted := Sort(counted, TurnsOf);
      SameSums(sorted, counted);
      forall model
        ensures Sum(sorted, KeyedTurns(model)) == Sum(days, DayTurns(model))
      {
        assert SameByName(sorted, counted, model);
      }
      return ModelSplit(sorted, false, false, 0, |days|);
    }
    var table := BreakdownTable(kept, perUsd);
    var hasCost := AnyCost(table);
    var sorted := Sort(table, if hasCost then Usd else ShareOf);
    SameSums(sorted, table);
    AtMostWhole(kept);
    CostSurvivesSorting(sorted, table);
    SortingKeepsRows(sorted, table);
    assert Priced(sorted, perUsd) by {
      assert forall i :: 0 <= i < |sorted| ==> sorted[i] in table;
    }
    forall name
      ensures Sum(sorted, KeyedTurns(name)) == Sum(kept, DayPlaced(Leaders(kept), name))
      ensures PlainDays(kept) ==> Sum(sorted, TurnsOfModel(name)) == Sum(kept, DayTurns(name))
    {
      assert SameByName(sorted, table, name);
    }
    r := ModelSplit(sorted, true, hasCost, |kept|, |days|);
  }

  lemma CostSurvivesSorting(xs: seq<Row>, ys: seq<Row>)
    requires multiset(xs) == multiset(ys)
    ensures (exists i :: 0 <= i < |xs| && xs[i].usd > 0.0) <==> (exists i :: 0 <= i < |ys| && ys[i].usd > 0.0)
  {
    forall x
      ensures x in xs <==> x in ys
    {
      assert x in multiset(xs) <==> x in multiset(ys);
    }
    if i :| 0 <= i < |xs| && xs[i].usd > 0.0 {
      assert xs[i] in ys;
    }
    if i :| 0 <= i < |ys| && ys[i].usd > 0.0 {
      assert ys[i] in xs;
    }
  }

  // ----- clients -----

  const ClientCredits: Client -> real := (c: Client) => c.credits
  const ClientTurns: Client -> real := (c: Client) => c.turns
  const ClientTokens: Client -> real := (c: Client) => c.tokens

  function AllClients(days: seq<Day>): seq<Client> {
    if days == [] then [] else AllClients(days[..|days| - 1]) + days[|days| - 1].clients
  }

  /** What the clients that bear a label add up to. */
  function Labelled(labelOf: string -> string, shown: string, f: Client -> real): Client -> real {
    (c: Client) => if labelOf(Or(c.id, "-")) == shown then f(c) else 0.0
  }

  ghost predicate LabelAdded(rows: seq<Row>, clients: seq<Client>, labelOf: string -> string, shown: string) {
    && Sum(rows, KeyedCredits(shown)) == Sum(clients, Labelled(labelOf, shown, ClientCredits))
    && Sum(rows, KeyedTurns(shown)) == Sum(clients, Labelled(labelOf, shown, ClientTurns))
    && Sum(rows, KeyedTokens(shown)) == Sum(clients, Labelled(labelOf, shown, ClientTokens))
  }

  ghost predicate ClientsAdded(rows: seq<Row>, clients: seq<Client>, perUsd: real, labelOf: string -> string)
    requires perUsd != 0.0
  {
    && Sum(rows, Credits) == Sum(clients, ClientCredits)
    && Sum(rows, TurnsOf) == Sum(clients, ClientTurns)
    && Sum(rows, Tokens) == Sum(clients, ClientTokens)
    && Priced(rows, perUsd)
    && forall shown :: LabelAdded(rows, clients, labelOf, shown)
  }

  /** One client's amounts added to the row of its label. */
  ghost predicate ClientPosted(before: seq<Row>, rows: seq<Row>, i: nat, c: Client, perUsd: real)
    requires perUsd != 0.0
  {
    && i < |before|
    && rows == before[i := before[i].(credits := before[i].credits + c.credits,
                                      usd := before[i].usd + c.credits / perUsd,
                                      turns := before[i].turns + c.turns, tokens := before[i].tokens + c.tokens)]
  }

  lemma ClientForLabel(before: seq<Row>, rows: seq<Row>, i: nat, c: Client, clients: seq<Client>, perUsd: real,
                       labelOf: string -> string, shown: string)
    requires perUsd != 0.0 && ClientPosted(before, rows, i, c, perUsd) && before[i].key == labelOf(Or(c.id, "-"))
    requires LabelAdded(before, clients, labelOf, shown)
    ensures LabelAdded(rows, clients + [c], labelOf, shown)
  {
    SumUpdate(before, i, rows[i], KeyedCredits(shown));
    SumUpdate(before, i, rows[i], KeyedTurns(shown));
    SumUpdate(before, i, rows[i], KeyedTokens(shown));
    SumSnoc(clients, c, Labelled(labelOf, shown, ClientCredits));
    SumSnoc(clients, c, Labelled(labelOf, shown, ClientTurns));
    SumSnoc(clients, c, Labelled(labelOf, shown, ClientTokens));
  }

  lemma ClientTotals(before: seq<Row>, rows: seq<Row>, i: nat, c: Client, clients: seq<Client>, perUsd: real,
                     labelOf: string -> string)
    requires perUsd != 0.0 && ClientPosted(before, rows, i, c, perUsd) && before[i].key == labelOf(Or(c.id, "-"))
    requires ClientsAdded(before, clients, perUsd, labelOf)
    ensures ClientsAdded(rows, clients + [c], perUsd, labelOf)
  {
    SumUpdate(before, i, rows[i], Credits);
    SumUpdate(before, i, rows[i], TurnsOf);
    SumUpdate(before, i, rows[i], Tokens);
    SumSnoc(clients, c, ClientCredits);
    SumSnoc(clients, c, ClientTurns);
    SumSnoc(clients, c, ClientTokens);
    QuotientOfSum(before[i].credits, c.credits, perUsd);
    forall shown
      ensures LabelAdded(rows, clients + [c], labelOf, shown)
    {
      ClientForLabel(before, rows, i, c, clients, perUsd, labelOf, shown);
    }
  }

  /** A new empty row changes nothing about the clients that were added. */
  lemma NewLabelAddsNothing(rows: seq<Row>, clients: seq<Client>, perUsd: real, labelOf: string -> string, name: string)
    requires perUsd != 0.0 && ClientsAdded(rows, clients, perUsd, labelOf)
    ensures ClientsAdded(rows + [NewRow(name, name, "")], clients, perUsd, labelOf)
  {
    NewRowAddsNothing(rows, name, name, "");
    NewRowHasNoTurns(rows, name, name, "");
    assert 0.0 / perUsd == 0.0;
    forall shown
      ensures LabelAdded(rows + [NewRow(name, name, "")], clients, labelOf, shown)
    {
      assert LabelAdded(rows, clients, labelOf, shown);
    }
  }

  method AddClient(was: seq<Row>, c: Client, ghost clients: seq<Client>, perUsd: real, labelOf: string -> string)
    returns (rows: seq<Row>)
    requires perUsd != 0.0 && DistinctKeys(was) && ClientsAdded(was, clients, perUsd, labelOf)
    ensures DistinctKeys(rows) && ClientsAdded(rows, clients + [c], perUsd, labelOf)
  {
    var name := labelOf(Or(c.id, "-"));
    var added, i := GetOrAdd(was, name, name, "");
    NewLabelAddsNothing(was, clients, perUsd, labelOf, name);
    rows := added[i := added[i].(credits := added[i].credits + c.credits, usd := added[i].usd + c.credits / perUsd,
                                 turns := added[i].turns + c.turns, tokens := added[i].tokens + c.tokens)];
    ClientTotals(added, rows, i, c, clients, perUsd, labelOf);
  }

  lemma SortingKeepsClients(xs: seq<Row>, ys: seq<Row>, clients: seq<Client>, perUsd: real, labelOf: string -> string)
    requires perUsd != 0.0 && multiset(xs) == multiset(ys) && ClientsAdded(ys, clients, perUsd, labelOf)
    ensures ClientsAdded(xs, clients, perUsd, labelOf)
  {
    SameSums(xs, ys);
    SortingKeepsRows(xs, ys);
    assert Priced(xs, perUsd) by {
      assert forall i :: 0 <= i < |xs| ==> xs[i] in ys;
    }
    forall shown
      ensures LabelAdded(xs, clients, labelOf, shown)
    {
      assert LabelAdded(ys, clients, labelOf, shown) && SameByName(xs, ys, shown);
    }
  }

  method AddClients(was: seq<Row>, more: seq<Client>, ghost clients: seq<Client>, perUsd: real,
                    labelOf: string -> string)
    returns (rows: seq<Row>)
    requires perUsd != 0.0 && DistinctKeys(was) && ClientsAdded(was, clients, perUsd, labelOf)
    ensures DistinctKeys(rows) && ClientsAdded(rows, clients + more, perUsd, labelOf)
  {
    rows := was;
    ghost var all := clients + more;
    assert all[..|clients|] == clients;
    for k := 0 to |more|
      invariant DistinctKeys(rows) && ClientsAdded(rows, all[..|clients| + k], perUsd, labelOf)
    {
      rows := AddClient(rows, more[k], all[..|clients| + k], perUsd, labelOf);
      assert all[..|clients| + (k + 1)] == all[..|clients| + k] + [more[k]];
    }
    assert all[..|all|] == all;
  }

  /** `aggregateClients`: every label has exactly what its clients have, in dollars too; most expensive first. */
  method AggregateClients(days: seq<Day>, perUsd: real, labelOf: string -> string) returns (rows: seq<Row>)
    requires perUsd != 0.0
    ensures ClientsAdded(rows, AllClients(days), perUsd, labelOf) && SortedBy(rows, Usd) && DistinctKeys(rows)
  {
    var table: seq<Row> := [];
    ghost var clients: seq<Client> := [];
    assert ClientsAdded(table, clients, perUsd, labelOf);
    for n := 0 to |days|
      invariant clients == AllClients(days[..n]) && DistinctKeys(table) && ClientsAdded(table, clients, perUsd, labelOf)
    {
      table := AddClients(table, days[n].clients, clients, perUsd, labelOf);
      clients := clients + days[n].clients;
      assert days[..n + 1][..n] == days[..n];
    }
    assert days[..|days|] == days;
    rows := Sort(table, Usd);
    SortingKeepsClients(rows, table, clients, perUsd, labelOf);
  }
}
