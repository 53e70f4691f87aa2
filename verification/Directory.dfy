/** The company-wide directory of travel endpoints, told from the stored routes and locations, and
    what a place name resolves to in it. */
module Directory {
  import opened Wrappers
  import opened Sorting
  import opened Relational
  import opened Repository
  import opened ReadAgreement
  import opened Scoping
  import opened Toolbox

  /** A location that some route leaves or reaches. */
  ghost predicate OnTheNetwork(db: Database, location: Row) {
    exists route :: route in Rows(db, TravelRoutes) &&
      (Refers(route, "origin_location_id", location, "location_id")
       || Refers(route, "destination_location_id", location, "location_id"))
  }

  /** The five columns of a location that the directory shows. */
  ghost predicate Labels(location: Row, shown: Row) {
    && shown.Keys == {"location_id", "name", "city", "country", "kind"}
    && forall column :: column in shown ==> shown[column] == Cell(location, column)
  }

  ghost predicate DirectoryEntry(db: Database, shown: Row) {
    exists location :: location in Rows(db, Locations) && OnTheNetwork(db, location) && Labels(location, shown)
  }

  ghost predicate NoRepeats(rows: seq<Row>) {
    forall i, j | 0 <= i < j < |rows| :: rows[i] != rows[j]
  }

  lemma {:induction false} EndpointMeans(db: Database, location: Row)
    ensures IsEndpoint(Rows(db, TravelRoutes), location) <==> OnTheNetwork(db, location)
  {
    var routes := Rows(db, TravelRoutes);
    hide Cell, Rows;
    if route :| route in routes &&
                (Refers(route, "origin_location_id", location, "location_id")
                 || Refers(route, "destination_location_id", location, "location_id")) {
      var i :| 0 <= i < |routes| && routes[i] == route;
    }
    if IsEndpoint(routes, location) {
      var i :| 0 <= i < |routes| &&
               var id := Cell(location, "location_id");
               SqlEq(id, Cell(routes[i], "origin_location_id"))
               || SqlEq(id, Cell(routes[i], "destination_location_id"));
      assert routes[i] in routes;
    }
  }

  lemma {:induction false} LabelsOnce(routes: seq<Row>, locations: seq<Row>)
    ensures NoRepeats(EndpointLabels(routes, locations))
    ensures forall shown :: shown in EndpointLabels(routes, locations) <==>
              exists location :: location in locations && IsEndpoint(routes, location) && Labels(location, shown)
  {
    hide IsEndpoint, Cell;
    if locations != [] {
      LabelsOnce(routes, locations[1..]);
      assert locations == [locations[0]] + locations[1..];
      var first := map c | c in ENDPOINT_COLUMNS :: Cell(locations[0], c);
      assert forall shown :: Labels(locations[0], shown) <==> shown == first;
    }
  }

  lemma {:induction false} RepeatsNeedTwo(rows: seq<Row>, x: Row)
    requires NoRepeats(rows)
    ensures multiset(rows)[x] <= 1
  {
    if rows != [] {
      RepeatsNeedTwo(rows[1..], x);
      assert rows == [rows[0]] + rows[1..];
      assert x == rows[0] ==> x !in rows[1..];
    }
  }

  lemma {:induction false} SortedOnce(rows: seq<Row>, sorted: seq<Row>)
    requires NoRepeats(rows) && multiset(sorted) == multiset(rows)
    ensures NoRepeats(sorted)
  {
    forall i, j | 0 <= i < j < |sorted|
      ensures sorted[i] != sorted[j]
    {
      if sorted[i] == sorted[j] {
        assert sorted == sorted[..j] + sorted[j..];
        assert sorted[..j][i] in sorted[..j] && sorted[j..][0] in sorted[j..];
        assert multiset(sorted) == multiset(sorted[..j]) + multiset(sorted[j..]);
        RepeatsNeedTwo(rows, sorted[i]);
      }
    }
  }

  /** Main result on the directory: it shows exactly the endpoints of the network, each label once
      and in order of location, or refuses because there are more than two hundred of them. */
  lemma {:induction false} DirectoryMeans(db: Database)
    ensures var r := TravelLocations(db);
            && (r.Ok? ==>
                  && |r.value| <= 200 && NoRepeats(r.value)
                  && (forall shown :: shown in r.value <==> DirectoryEntry(db, shown))
                  && (forall i, j | 0 <= i < j < |r.value| ::
                        Ascends(Cell(r.value[i], "location_id"), Cell(r.value[j], "location_id"))))
            && (r.Err? ==>
                  && r == Err(DirectoryTooLarge)
                  && exists rows: seq<Row> ::
                       |rows| > 200 && NoRepeats(rows) && forall shown :: shown in rows ==> DirectoryEntry(db, shown))
  {
    var labels := EndpointLabels(Rows(db, TravelRoutes), Rows(db, Locations));
    var le := OrderBy(["location_id"]);
    var sorted := Sort(labels, le);
    LabelsOnce(Rows(db, TravelRoutes), Rows(db, Locations));
    forall location: Row
      ensures IsEndpoint(Rows(db, TravelRoutes), location) <==> OnTheNetwork(db, location)
    {
      EndpointMeans(db, location);
    }
    SortMembers(labels, le);
    SortMultiset(labels, le);
    OrderByIsPreorder(["location_id"]);
    SortSorted(labels, le);
    hide IsEndpoint, OnTheNetwork, Labels, NoRepeats, EndpointLabels, Sort, Rows, Cell, Ascends, ValueLe, RowLe,
      TotalPreorder;
    SortedOnce(labels, sorted);
    forall i, j | 0 <= i < j < |sorted|
      ensures Ascends(Cell(sorted[i], "location_id"), Cell(sorted[j], "location_id"))
    {
      assert le(sorted[i], sorted[j]);
      OrderedAscends(sorted[i], sorted[j]);
    }
    assert forall shown :: shown in sorted <==> DirectoryEntry(db, shown);
  }

  lemma {:induction false} OrderedAscends(a: Row, b: Row)
    requires OrderBy(["location_id"])(a, b)
    ensures Ascends(Cell(a, "location_id"), Cell(b, "location_id"))
  {
    hide Ascends, ValueLe, Cell;
    ValueLeAscends(Cell(a, "location_id"), Cell(b, "location_id"));
  }

  // ------------------------------------------------------------------- resolving a name

  /** What of an entry can be asked for: its five columns as text, and the generic name of a
      distribution site. */
  ghost function Spoken(shown: Row): string {
    StrOf(Cell(shown, "location_id")) + " " + StrOf(Cell(shown, "name")) + " " + StrOf(Cell(shown, "city"))
    + " " + StrOf(Cell(shown, "country")) + " " + StrOf(Cell(shown, "kind"))
    + if Cell(shown, "kind") == Value.Text("distribution") then " center" else ""
  }

  /** An entry that every word of the query names. */
  ghost predicate Named(cfg: Config, db: Database, query: string, shown: Row) {
    DirectoryEntry(db, shown) && cfg.tokens(query) <= cfg.tokens(Spoken(shown))
  }

  ghost predicate OnlyNamed(cfg: Config, db: Database, query: string, shown: Row) {
    Named(cfg, db, query, shown) && forall other :: Named(cfg, db, query, other) ==> other == shown
  }

  ghost predicate BothNamed(cfg: Config, db: Database, query: string, a: Row, b: Row) {
    Named(cfg, db, query, a) && Named(cfg, db, query, b) && a != b
  }

  lemma {:induction false} LabelIsSpoken(shown: Row)
    ensures Label(shown) == Spoken(shown)
  {
    hide StrOf, Cell;
    var id, name, city := StrOf(Cell(shown, "location_id")), StrOf(Cell(shown, "name")), StrOf(Cell(shown, "city"));
    var country, kind := StrOf(Cell(shown, "country")), StrOf(Cell(shown, "kind"));
    FiveJoined(id, name, city, country, kind);
  }

  lemma {:induction false} FiveJoined(a: string, b: string, c: string, d: string, e: string)
    ensures Text.Join([a, b, c, d, e], ' ') == a + " " + b + " " + c + " " + d + " " + e
  {
    assert [a, b, c, d, e][1..] == [b, c, d, e] && [b, c, d, e][1..] == [c, d, e];
    assert [c, d, e][1..] == [d, e] && [d, e][1..] == [e];
    assert Text.Join([e], ' ') == e && Text.Join([d, e], ' ') == d + " " + e;
    assert Text.Join([c, d, e], ' ') == c + " " + (d + " " + e);
    assert Text.Join([b, c, d, e], ' ') == b + " " + (c + " " + (d + " " + e));
  }

  lemma {:induction false} MatchesMembers(cfg: Config, locations: seq<Row>, requested: set<string>)
    requires NoRepeats(locations)
    ensures NoRepeats(MatchingLocations(cfg, locations, requested))
    ensures forall shown :: shown in MatchingLocations(cfg, locations, requested) <==>
              shown in locations && requested <= cfg.tokens(Spoken(shown))
  {
    hide Label, Spoken;
    if locations != [] {
      MatchesMembers(cfg, locations[1..], requested);
      LabelIsSpoken(locations[0]);
      assert locations == [locations[0]] + locations[1..];
    }
  }

  /** Main result on place names: what is reported unique is the one endpoint named by every word
      of the query, ambiguous if there are several, not found if there are none; never on the
      strength of a directory cut short. */
  lemma {:induction false} ResolutionMeans(cfg: Config, db: Database, args: Dict<Arg>)
    requires ResolveLocations(cfg, db, args).Ok?
    ensures TextArgument(args, "query").Ok? && ResolveLocations(cfg, db, args).value.Resolution?
    ensures var query := cfg.strip(TextArgument(args, "query").value);
            var answer := ResolveLocations(cfg, db, args).value;
            && 1 <= |query| <= 200 && cfg.tokens(query) != {}
            && (forall shown :: shown in answer.matches <==> Named(cfg, db, query, shown))
            && (answer.status == "unique" <==> exists shown :: OnlyNamed(cfg, db, query, shown))
            && (answer.status == "ambiguous" <==> exists a, b :: BothNamed(cfg, db, query, a, b))
            && (answer.status == "not_found" <==> forall shown :: !Named(cfg, db, query, shown))
  {
    ResolutionFinds(cfg, db, args);
    hide ResolveLocations, TextArgument, OnlyNamed, BothNamed, Named, NoRepeats;
    HowMany(cfg, db, cfg.strip(TextArgument(args, "query").value), ResolveLocations(cfg, db, args).value.matches);
  }

  lemma {:induction false} ResolutionFinds(cfg: Config, db: Database, args: Dict<Arg>)
    requires ResolveLocations(cfg, db, args).Ok?
    ensures TextArgument(args, "query").Ok? && ResolveLocations(cfg, db, args).value.Resolution?
    ensures var query := cfg.strip(TextArgument(args, "query").value);
            var answer := ResolveLocations(cfg, db, args).value;
            && 1 <= |query| <= 200 && cfg.tokens(query) != {} && NoRepeats(answer.matches)
            && (forall shown :: shown in answer.matches <==> Named(cfg, db, query, shown))
            && (answer.status == "unique" <==> |answer.matches| == 1)
            && (answer.status == "ambiguous" <==> |answer.matches| > 1)
            && (answer.status == "not_found" <==> |answer.matches| == 0)
  {
    hide TravelLocations, MatchingLocations, TextArgument, Spoken, DirectoryEntry, NoRepeats;
    DirectoryMeans(db);
    var locations := TravelLocations(db).value;
    var query := cfg.strip(TextArgument(args, "query").value);
    MatchesMembers(cfg, locations, cfg.tokens(query));
    assert "unique"[0] == 'u' && "ambiguous"[0] == 'a' && "not_found"[0] == 'n';
  }

  lemma {:induction false} HowMany(cfg: Config, db: Database, query: string, matches: seq<Row>)
    requires NoRepeats(matches) && forall shown :: shown in matches <==> Named(cfg, db, query, shown)
    ensures |matches| == 1 <==> exists shown :: OnlyNamed(cfg, db, query, shown)
    ensures |matches| > 1 <==> exists a, b :: BothNamed(cfg, db, query, a, b)
    ensures |matches| == 0 <==> forall shown :: !Named(cfg, db, query, shown)
  {
    hide Named;
    if |matches| == 0 {
    } else if |matches| == 1 {
      assert matches[0] in matches;
      assert OnlyNamed(cfg, db, query, matches[0]);
    } else {
      assert matches[0] in matches && matches[1] in matches;
      assert BothNamed(cfg, db, query, matches[0], matches[1]);
    }
  }
}
