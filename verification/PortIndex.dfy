/** ilclient_get_port_index: the index-th port of a direction among the selected domains. */
module PortIndex {
  import opened Common

  datatype Domain = Video | Audio | Image | Other

  datatype Direction = Input | Output

  /** What the component answers for one domain: its ports are start, start+1, .... */
  datatype Range = Range(start: int, count: nat)

  /** The component as seen through OMX_GetParameter. */
  datatype Ports = Ports(range: Domain -> Range, dir: int -> Direction)

  datatype Filter = Any | Only(domain: Domain)  // Any is the type argument -1

  /** port_types, in table order. */
  const TABLE: seq<Domain> := [Video, Audio, Image, Other]

  predicate Selects(f: Filter, d: Domain) {
    f.Any? || f.domain == d
  }

  /** Port `j` of the domain in table entry `i`. */
  datatype Place = Place(i: nat, j: nat)

  function PortAt(p: Ports, x: Place): int
    requires x.i < |TABLE|
  {
    p.range(TABLE[x.i]).start + x.j
  }

  /** The ports of a direction among the first `n` of table entry `i`. */
  function Facing(p: Ports, dir: Direction, i: nat, n: nat): seq<Place>
    requires i < |TABLE|
  {
    if n == 0 then [] else
      Facing(p, dir, i, n - 1) + if p.dir(PortAt(p, Place(i, n - 1))) == dir then [Place(i, n - 1)] else []
  }

  /** All candidates in the first `n` table entries, in order. */
  function Candidates(p: Ports, dir: Direction, f: Filter, n: nat): seq<Place>
    requires n <= |TABLE|
  {
    if n == 0 then [] else
      Candidates(p, dir, f, n - 1)
      + if Selects(f, TABLE[n - 1]) then Facing(p, dir, n - 1, p.range(TABLE[n - 1]).count) else []
  }

  // ---------------------------------------------------------------- what the candidates are

  predicate Precedes(x: Place, y: Place) {
    x.i < y.i || (x.i == y.i && x.j < y.j)
  }

  predicate Ascending(s: seq<Place>) {
    forall a, b :: 0 <= a < b < |s| ==> Precedes(s[a], s[b])
  }

  lemma AscendingConcat(s: seq<Place>, t: seq<Place>)
    requires Ascending(s) && Ascending(t) && forall x, y :: x in s && y in t ==> Precedes(x, y)
    ensures Ascending(s + t) && forall x :: x in s + t <==> x in s || x in t
  {
  }

  lemma {:induction false} FacingAre(p: Ports, dir: Direction, i: nat, n: nat)
    requires i < |TABLE|
    ensures Ascending(Facing(p, dir, i, n))
    ensures forall x :: x in Facing(p, dir, i, n) <==>
      x.i == i && x.j < n && p.dir(p.range([Video, Audio, Image, Other][i]).start + x.j) == dir
  {
    if n > 0 {
      FacingAre(p, dir, i, n - 1);
      var last := if p.dir(PortAt(p, Place(i, n - 1))) == dir then [Place(i, n - 1)] else [];
      assert forall x :: x in last <==> last != [] && x == Place(i, n - 1);
      AscendingConcat(Facing(p, dir, i, n - 1), last);
    }
  }

  lemma {:induction false} CandidatesAre(p: Ports, dir: Direction, f: Filter, n: nat)
    requires n <= |TABLE|
    ensures Ascending(Candidates(p, dir, f, n))
    ensures var order := [Video, Audio, Image, Other];
      forall x :: x in Candidates(p, dir, f, n) <==>
        x.i < n && (f.Any? || f.domain == order[x.i]) && x.j < p.range(order[x.i]).count
        && p.dir(p.range(order[x.i]).start + x.j) == dir
  {
    if n > 0 {
      CandidatesAre(p, dir, f, n - 1);
      FacingAre(p, dir, n - 1, p.range(TABLE[n - 1]).count);
      var last := if Selects(f, TABLE[n - 1]) then Facing(p, dir, n - 1, p.range(TABLE[n - 1]).count) else [];
      hide Facing;
      AscendingConcat(Candidates(p, dir, f, n - 1), last);
    }
  }

  lemma {:induction false} InOrder(s: seq<Place>, k: nat)
    requires Ascending(s) && k < |s|
    ensures |set x | x in s && Precedes(x, s[k])| == k && |set x | x in s| == |s|
  {
    forall a, b | 0 <= a < b < |s| ensures s[a] != s[b] { assert Precedes(s[a], s[b]); }
    DistinctCard(s);
    DistinctCard(s[..k]);
    forall x | x in s ensures Precedes(x, s[k]) <==> x in s[..k] {
      var a :| 0 <= a < |s| && s[a] == x;
      assert a < k ==> s[..k][a] == x;
      if x in s[..k] {
        var b :| 0 <= b < k && s[..k][b] == x;
        assert s[b] == x;
      }
      assert a > k ==> Precedes(s[k], s[a]);
    }
    assert (set x | x in s && Precedes(x, s[k])) == (set x | x in s[..k]);
  }

  lemma Unlisted(s: seq<Place>)
    requires Ascending(s)
    ensures |set x | x in s| == |s|
  {
    if s != [] { InOrder(s, 0); }
  }

  /** The places that count: those of the direction in the ranges of the selected domains, Video before
      Audio before Image before Other. */
  ghost function Picked(p: Ports, dir: Direction, f: Filter): set<Place> {
    var order := [Video, Audio, Image, Other];
    set i, j | 0 <= i < 4 && 0 <= j < p.range(order[i]).count && (f.Any? || f.domain == order[i])
               && p.dir(p.range(order[i]).start + j) == dir :: Place(i, j)
  }

  ghost function Earlier(s: set<Place>, y: Place): set<Place> {
    set x | x in s && (x.i < y.i || (x.i == y.i && x.j < y.j))
  }

  /** `port` is the one of these that has exactly `index` of them before it; -1 if there are not that many. */
  ghost predicate IsPort(p: Ports, dir: Direction, f: Filter, index: int, port: int) {
    var order, picked := [Video, Audio, Image, Other], Picked(p, dir, f);
    if 0 <= index < |picked| then
      exists y :: y in picked && y.i < 4 && port == p.range(order[y.i]).start + y.j && |Earlier(picked, y)| == index
    else port == -1
  }

  lemma CandidatesArePicked(p: Ports, dir: Direction, f: Filter)
    ensures Picked(p, dir, f) == set x | x in Candidates(p, dir, f, 4)
  {
    CandidatesAre(p, dir, f, 4);
    hide Candidates;
    forall x ensures x in Picked(p, dir, f) <==> x in Candidates(p, dir, f, 4) { }
  }

  /** The candidate at a position is the place with as many of them before it. */
  lemma CandidatesAreThese(p: Ports, dir: Direction, f: Filter, k: nat)
    ensures var all := Candidates(p, dir, f, 4);
      |all| == |Picked(p, dir, f)|
      && (k < |all| ==> all[k] in Picked(p, dir, f) && |Earlier(Picked(p, dir, f), all[k])| == k)
  {
    var all := Candidates(p, dir, f, 4);
    CandidatesArePicked(p, dir, f);
    CandidatesAre(p, dir, f, 4);
    hide Candidates, Picked;
    Unlisted(all);
    if k < |all| {
      InOrder(all, k);
      assert all[k] in all;
      assert Earlier((set x | x in all), all[k]) == (set x | x in all && Precedes(x, all[k]));
    }
  }

  lemma CandidateIsPort(p: Ports, dir: Direction, f: Filter, index: int, port: int)
    requires var all := Candidates(p, dir, f, 4);
      if 0 <= index < |all| then all[index].i < |TABLE| && port == PortAt(p, all[index]) else port == -1
    ensures IsPort(p, dir, f, index, port)
  {
    var all := Candidates(p, dir, f, 4);
    CandidatesAreThese(p, dir, f, if index < 0 then 0 else index);
    CandidatesAre(p, dir, f, 4);
    hide Candidates, Picked, Earlier;
    if 0 <= index < |all| {
      assert all[index] in all;
      assert TABLE[all[index].i] == [Video, Audio, Image, Other][all[index].i];
    }
  }

  // ---------------------------------------------------------------- the loops

  lemma {:induction false} FacingGrows(p: Ports, dir: Direction, i: nat, m: nat, n: nat)
    requires i < |TABLE| && m <= n
    ensures Facing(p, dir, i, m) <= Facing(p, dir, i, n)
    decreases n
  {
    if m < n { FacingGrows(p, dir, i, m, n - 1); }
  }

  lemma {:induction false} CandidatesGrow(p: Ports, dir: Direction, f: Filter, m: nat, n: nat)
    requires m <= n <= |TABLE|
    ensures Candidates(p, dir, f, m) <= Candidates(p, dir, f, n)
    decreases n
  {
    if m < n { CandidatesGrow(p, dir, f, m, n - 1); }
  }

  /** The port at hand is the candidate whose position is the number of candidates before it. */
  lemma Found(p: Ports, dir: Direction, f: Filter, i: nat, j: nat)
    requires i < |TABLE| && Selects(f, TABLE[i]) && j < p.range(TABLE[i]).count && p.dir(PortAt(p, Place(i, j))) == dir
    ensures var k := |Candidates(p, dir, f, i)| + |Facing(p, dir, i, j)|;
      var all := Candidates(p, dir, f, |TABLE|);
      k < |all| && all[k] == Place(i, j)
  {
    var before, here := Candidates(p, dir, f, i), Facing(p, dir, i, j);
    var facing, all := Facing(p, dir, i, p.range(TABLE[i]).count), Candidates(p, dir, f, |TABLE|);
    FacingGrows(p, dir, i, j + 1, p.range(TABLE[i]).count);
    CandidatesGrow(p, dir, f, i + 1, |TABLE|);
    FacingStep(p, dir, i, j);
    assert Candidates(p, dir, f, i + 1) == before + facing;
    hide Candidates, Facing;
    InPrefix(before, here, facing, all, Place(i, j));
  }

  lemma FacingStep(p: Ports, dir: Direction, i: nat, j: nat)
    requires i < |TABLE| && p.dir(PortAt(p, Place(i, j))) == dir
    ensures Facing(p, dir, i, j + 1) == Facing(p, dir, i, j) + [Place(i, j)]
  {
  }

  lemma InPrefix(before: seq<Place>, here: seq<Place>, facing: seq<Place>, all: seq<Place>, x: Place)
    requires here + [x] <= facing && before + facing <= all
    ensures |before| + |here| < |all| && all[|before| + |here|] == x
  {
    assert facing[|here|] == (here + [x])[|here|];
    assert all[|before| + |here|] == (before + facing)[|before| + |here|];
  }

  /** What one turn of the outer loop counts. */
  lemma CandidatesStep(p: Ports, dir: Direction, f: Filter)
    ensures Candidates(p, dir, f, 0) == []
    ensures forall i: nat :: i < |TABLE| ==>
      |Candidates(p, dir, f, i + 1)| == |Candidates(p, dir, f, i)|
        + if Selects(f, TABLE[i]) then |Facing(p, dir, i, p.range(TABLE[i]).count)| else 0
  {
  }

  /** The port of the asked direction, in a selected range, that has exactly `index0` of them before it;
      -1 if there are not that many. */
  method GetPortIndex(p: Ports, dir: Direction, f: Filter, index0: int) returns (port: int)
    ensures IsPort(p, dir, f, index0, port)
  {
    hide IsPort, Candidates;
    CandidatesStep(p, dir, f);
    var index := index0;
    for i := 0 to |TABLE|
      invariant index == index0 - |Candidates(p, dir, f, i)|
      invariant 0 <= index0 ==> 0 <= index
    {
      if Selects(f, TABLE[i]) {
        var param := p.range(TABLE[i]);
        ghost var before := Candidates(p, dir, f, i);
        for j := 0 to param.count
          invariant index == index0 - |before| - |Facing(p, dir, i, j)|
          invariant 0 <= index0 ==> 0 <= index
        {
          var q := param.start + j;
          if p.dir(q) == dir {
            if index == 0 {
              Found(p, dir, f, i, j);
              CandidateIsPort(p, dir, f, index0, q);
              return q;
            }
            index := index - 1;
          }
        }
      }
    }
    port := -1;
    CandidateIsPort(p, dir, f, index0, port);
  }
}
