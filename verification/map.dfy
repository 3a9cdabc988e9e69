/** `/api/posts/map`: the posts within a radius of a point, optionally
    narrowed to some species by an SQL fragment the handler builds as a
    string. Both the distance and the evaluation of the fragment belong to
    the database and are parameters here. */
module Map {
  import opened Http
  import opened Text
  import opened Rows
  import opened Store

  const Separator: string := " OR "

  /** The text after each species in its condition. */
  const ConditionTail: string := "' = ANY(bird_species)"

  /** The condition for one species: `'<species>' = ANY(bird_species)`. */
  function Condition(species: string): (c: string)
    ensures |c| == |species| + 1 + |ConditionTail|
    ensures c[0] == '\'' && c[1..|species| + 1] == species && c[|species| + 1..] == ConditionTail
  {
    "'" + species + ConditionTail
  }

  function Conditions(species: seq<string>): (cs: seq<string>)
    ensures |cs| == |species|
    ensures forall i :: 0 <= i < |species| ==> cs[i] == Condition(species[i])
  {
    if species == [] then [] else [Condition(species[0])] + Conditions(species[1..])
  }

  /** The extra WHERE clause: empty with no species, else
      `AND (` the conditions joined by ` OR ` `)`. That the clause holds one
      condition per species is `OneConditionPerSpecies`. */
  function Clause(species: seq<string>): (c: string)
    ensures species == [] <==> c == ""
    ensures species != [] ==> c == "AND (" + Join(Conditions(species), Separator) + ")"
  {
    if species == [] then ""
    else "AND (" + Join(Conditions(species), Separator) + ")"
  }

  /** A species that does not contain the separator yields a condition that
      can be split back out of the joined clause. */
  lemma {:induction false} ConditionSeparable(species: string)
    requires !Contains(species, Separator)
    ensures Separable(Condition(species), Separator)
  {
    var c := Condition(species);
    var n := |species|;
    assert forall i :: 0 <= i < |ConditionTail| ==> ConditionTail[i] != 'O';
    forall j | 0 <= j && j + 4 <= |c| ensures !Occurs(c, Separator, j) {
      if j == 0 {
        assert c[j..j + 4][0] == '\'';
      } else if j + 4 <= n + 1 {
        assert c[j..j + 4] == species[j - 1..j + 3];
        assert !Occurs(species, Separator, j - 1);
      } else if j <= n + 1 {
        assert c[j..j + 4][n + 1 - j] == c[n + 1] == ConditionTail[0] == '\'';
      } else {
        assert c[j..j + 4][1] == c[j + 1] == ConditionTail[j + 1 - (n + 1)];
      }
    }
    assert forall j :: !Occurs(c, Separator, j);
    assert c[|c| - 1] == ')';
  }

  /** The clause holds exactly one condition per species, in the order the
      species were given, as long as no species contains the separator. */
  lemma {:induction false} OneConditionPerSpecies(species: seq<string>)
    requires species != []
    requires forall i :: 0 <= i < |species| ==> !Contains(species[i], Separator)
    ensures var c := Clause(species);
            && |c| >= 6
            && c[..5] == "AND (" && c[|c| - 1] == ')'
            && Split(c[5..|c| - 1], Separator) == Conditions(species)
  {
    var cs := Conditions(species);
    forall k | 0 <= k < |cs| ensures Separable(cs[k], Separator) {
      ConditionSeparable(species[k]);
    }
    SplitJoin(cs, Separator);
    var inner := Join(cs, Separator);
    var c := Clause(species);
    assert c == "AND (" + inner + ")";
    assert c[5..|c| - 1] == inner;
  }

  /** A post as the map query selects it. */
  datatype Marker = Marker(id: int, latitude: real, longitude: real, birdSpecies: string)

  function ToMarkers(ps: seq<Post>): (r: seq<Marker>)
    ensures |r| == |ps|
    ensures forall i :: 0 <= i < |ps| ==>
              r[i] == Marker(ps[i].id, ps[i].latitude, ps[i].longitude, ps[i].birdSpecies)
  {
    if ps == [] then [] else [Marker(ps[0].id, ps[0].latitude, ps[0].longitude, ps[0].birdSpecies)] + ToMarkers(ps[1..])
  }

  /** The handler: `lat` and `lon` default to 0 and `radius` (kilometres)
      to 10; any of them that is NaN is a bad request (400). Otherwise every
      post within the radius that the clause admits, in storage order, with
      no paging. The empty clause admits every post. */
  function Markers(lat: Param<real>, lon: Param<real>, radius: Param<real>, species: seq<string>,
                   posts: seq<Post>, dist: (real, real, real, real) -> real,
                   admits: (string, Post) -> bool): (r: Response<seq<Marker>>)
    ensures r.Err? <==> lat.Unparsable? || lon.Unparsable? || radius.Unparsable?
    ensures r.Err? ==> r == Err(BadRequest)
    ensures r.Ok? ==>
              var x, y, km := OrDefault(lat, 0.0).value, OrDefault(lon, 0.0).value, OrDefault(radius, 10.0).value;
              r.code == 200 &&
              forall m :: m in r.body <==>
                exists p :: p in posts && m == Marker(p.id, p.latitude, p.longitude, p.birdSpecies) &&
                            dist(p.latitude, p.longitude, x, y) <= km * 1000.0 &&
                            (species == [] || admits(Clause(species), p))
  {
    if lat.Unparsable? || lon.Unparsable? || radius.Unparsable? then Err(BadRequest)
    else
      var x, y, km := OrDefault(lat, 0.0).value, OrDefault(lon, 0.0).value, OrDefault(radius, 10.0).value;
      var clause := Clause(species);
      var found := Filter(posts, (p: Post) => dist(p.latitude, p.longitude, x, y) <= km * 1000.0 &&
                                            (clause == "" || admits(clause, p)));
      var markers := ToMarkers(found);
      assert forall m :: m in markers <==>
               exists p :: p in found && m == Marker(p.id, p.latitude, p.longitude, p.birdSpecies) by {
        forall m | m in markers
          ensures exists p :: p in found && m == Marker(p.id, p.latitude, p.longitude, p.birdSpecies)
        {
          var i :| 0 <= i < |markers| && markers[i] == m;
          assert found[i] in found;
        }
        forall p | p in found ensures Marker(p.id, p.latitude, p.longitude, p.birdSpecies) in markers {
          var i :| 0 <= i < |found| && found[i] == p;
          assert markers[i] == Marker(p.id, p.latitude, p.longitude, p.birdSpecies);
        }
      }
      Ok(200, markers)
  }
}
