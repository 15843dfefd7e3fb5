/**
 Linking scoreboard rows to derived matches (mutual_unique_best_assignments): which links are
 called exact, and why an exact link cannot be avoided by any stable one-to-one assignment.
 */
module LinkAssignment {
  import opened Options
  import opened Picking

  // A scored candidate of one board, and the same edge seen from the match it leads to.
  datatype Edge = Edge(score: int, key: string)
  datatype Claim = Claim(score: int, board: int)

  type Edges = map<int, seq<Edge>>

  ghost predicate HasEdge(edges: Edges, board: int, e: Edge) {
    board in edges && e in edges[board]
  }

  // `key` is the only best candidate of `board`, and `board` the only best one of `key`.
  ghost predicate MutualBest(edges: Edges, board: int, key: string) {
    exists s :: BestByScore(edges, board, key, s)
  }

  ghost predicate BestByScore(edges: Edges, board: int, key: string, s: int) {
    && HasEdge(edges, board, Edge(s, key))
    && (forall e :: HasEdge(edges, board, e) ==> if e.key == key then e.score <= s else e.score < s)
    && (forall b, t :: HasEdge(edges, b, Edge(t, key)) ==> if b == board then t <= s else t < s)
  }

  // ---------- The computation ----------

  function BestEdgeScore(es: seq<Edge>): (best: int)
    requires es != []
    ensures (exists e :: e in es && e.score == best) && forall e :: e in es ==> e.score <= best
  {
    var last := es[|es| - 1];
    if |es| == 1 then last.score
    else
      var rest := BestEdgeScore(es[..|es| - 1]);
      assert es == es[..|es| - 1] + [last];
      if rest < last.score then last.score else rest
  }

  function BestClaimScore(cs: seq<Claim>): (best: int)
    requires cs != []
    ensures (exists c :: c in cs && c.score == best) && forall c :: c in cs ==> c.score <= best
  {
    var last := cs[|cs| - 1];
    if |cs| == 1 then last.score
    else
      var rest := BestClaimScore(cs[..|cs| - 1]);
      assert cs == cs[..|cs| - 1] + [last];
      if rest < last.score then last.score else rest
  }

  function TopKeys(es: seq<Edge>): set<string>
    requires es != []
  {
    set e | e in es && e.score == BestEdgeScore(es) :: e.key
  }

  function TopBoards(cs: seq<Claim>): set<int>
    requires cs != []
  {
    set c | c in cs && c.score == BestClaimScore(cs) :: c.board
  }

  lemma SoleTopKey(es: seq<Edge>, key: string)
    requires es != []
    ensures TopKeys(es) == {key} <==>
      exists s :: Edge(s, key) in es && forall e :: e in es ==> if e.key == key then e.score <= s else e.score < s
  {
    var best := BestEdgeScore(es);
    var top :| top in es && top.score == best;
    assert top.key in TopKeys(es);
    if TopKeys(es) == {key} {
      assert Edge(top.score, key) in es;
      forall e | e in es ensures if e.key == key then e.score <= top.score else e.score < top.score {
        if e.score == top.score {
          assert e.key in TopKeys(es);
        }
      }
    }
    if s :| Edge(s, key) in es && forall e :: e in es ==> if e.key == key then e.score <= s else e.score < s {
      assert top.key == key && top.score == s;
      forall k | k in TopKeys(es) ensures k == key {
        var e :| e in es && e.score == top.score && e.key == k;
      }
    }
  }

  // The score `s` with which `board` is above every other claim on it.
  ghost predicate TopClaim(cs: seq<Claim>, board: int, s: int) {
    Claim(s, board) in cs && forall c :: c in cs ==> if c.board == board then c.score <= s else c.score < s
  }

  lemma SoleTopBoard(cs: seq<Claim>, board: int)
    requires cs != []
    ensures TopBoards(cs) == {board} <==> exists s :: TopClaim(cs, board, s)
  {
    var best := BestClaimScore(cs);
    var top :| top in cs && top.score == best;
    assert top.board in TopBoards(cs);
    if TopBoards(cs) == {board} {
      assert Claim(top.score, board) in cs;
      forall c | c in cs ensures if c.board == board then c.score <= top.score else c.score < top.score {
        if c.score == top.score {
          assert c.board in TopBoards(cs);
        }
      }
      assert TopClaim(cs, board, top.score);
    }
    if s :| TopClaim(cs, board, s) {
      assert top.board == board && top.score == s;
      forall b | b in TopBoards(cs) ensures b == board {
        var c :| c in cs && c.score == top.score && c.board == b;
      }
    }
  }

  // The claims on every key, gathered from the boards in `done`.
  ghost predicate Gathered(edges: Edges, done: set<int>, claims: map<string, seq<Claim>>) {
    && (forall k :: k in claims ==> claims[k] != [])
    && (forall k, c: Claim ::
      (k in claims && c in claims[k]) <==> (c.board in done && HasEdge(edges, c.board, Edge(c.score, k))))
  }

  method GatherBoard(edges: Edges, ghost done: set<int>, board: int, claims0: map<string, seq<Claim>>)
    returns (claims: map<string, seq<Claim>>)
    requires board in edges && board !in done && Gathered(edges, done, claims0)
    ensures Gathered(edges, done + {board}, claims)
  {
    claims := claims0;
    var es := edges[board];
    for i := 0 to |es|
      invariant forall k :: k in claims ==> claims[k] != []
      invariant forall k, c: Claim :: (k in claims && c in claims[k]) <==>
        || (c.board in done && HasEdge(edges, c.board, Edge(c.score, k)))
        || (c.board == board && Edge(c.score, k) in es[..i])
    {
      var e := es[i];
      var earlier := if e.key in claims then claims[e.key] else [];
      assert es[..i + 1] == es[..i] + [e];
      claims := claims[e.key := earlier + [Claim(e.score, board)]];
    }
    assert es[..|es|] == es;
  }

  lemma ExactIsMutualBest(edges: Edges, claims: map<string, seq<Claim>>, board: int, key: string)
    requires Gathered(edges, edges.Keys, claims) && board in edges && edges[board] != []
    requires TopKeys(edges[board]) == {key} && key in claims && TopBoards(claims[key]) == {board}
    ensures MutualBest(edges, board, key)
  {
    SoleTopKey(edges[board], key);
    SoleTopBoard(claims[key], board);
    var s :| Edge(s, key) in edges[board]
      && forall e :: e in edges[board] ==> if e.key == key then e.score <= s else e.score < s;
    var t :| TopClaim(claims[key], board, t);
    assert HasEdge(edges, board, Edge(t, key)) && Claim(s, board) in claims[key];
    assert s == t;
    forall b, u | HasEdge(edges, b, Edge(u, key)) ensures if b == board then u <= s else u < s {
      assert Claim(u, b) in claims[key];
    }
    assert BestByScore(edges, board, key, s);
  }

  lemma MutualBestIsExact(edges: Edges, claims: map<string, seq<Claim>>, board: int, key: string)
    requires Gathered(edges, edges.Keys, claims) && board in edges && edges[board] != []
    requires MutualBest(edges, board, key)
    ensures TopKeys(edges[board]) == {key} && key in claims && TopBoards(claims[key]) == {board}
  {
    SoleTopKey(edges[board], key);
    var s :| BestByScore(edges, board, key, s);
    assert Claim(s, board).board in edges.Keys;
    assert key in claims && Claim(s, board) in claims[key];
    SoleTopBoard(claims[key], board);
    forall c | c in claims[key] ensures if c.board == board then c.score <= s else c.score < s {
      assert HasEdge(edges, c.board, Edge(c.score, key));
    }
    assert TopClaim(claims[key], board, s);
  }

  lemma ExactMeansMutualBest(edges: Edges, claims: map<string, seq<Claim>>, board: int, key: string)
    requires Gathered(edges, edges.Keys, claims) && board in edges && edges[board] != []
    ensures TopKeys(edges[board]) == {key} && key in claims && TopBoards(claims[key]) == {board}
      <==> MutualBest(edges, board, key)
  {
    if TopKeys(edges[board]) == {key} && key in claims && TopBoards(claims[key]) == {board} {
      ExactIsMutualBest(edges, claims, board, key);
    }
    if MutualBest(edges, board, key) {
      MutualBestIsExact(edges, claims, board, key);
    }
  }

  // The best keys of every board among `done` that has any.
  function Tops(edges: Edges, done: set<int>): map<int, set<string>> {
    map b | b in edges && b in done && edges[b] != [] :: TopKeys(edges[b])
  }

  lemma TopsOneMore(edges: Edges, done: set<int>, board: int)
    requires board in edges
    ensures Tops(edges, done + {board})
      == if edges[board] == [] then Tops(edges, done) else Tops(edges, done)[board := TopKeys(edges[board])]
  {
  }

  /** The mutual unique-best links, and the tied or contested candidates of every other board. */
  method MutualUniqueBestAssignments(edges: Edges) returns (exact: map<int, string>, ambiguous: map<int, set<string>>)
    ensures forall b, k :: b in exact && exact[b] == k <==> MutualBest(edges, b, k)
    ensures exact.Keys !! ambiguous.Keys
    ensures exact.Keys + ambiguous.Keys == set b | b in edges && edges[b] != []
    ensures forall b :: b in ambiguous ==> ambiguous[b] == TopKeys(edges[b])
  {
    var boardTop: map<int, set<string>> := map[];
    var claims: map<string, seq<Claim>> := map[];
    var left := edges.Keys;
    while left != {}
      invariant left <= edges.Keys
      invariant boardTop == Tops(edges, edges.Keys - left)
      invariant Gathered(edges, edges.Keys - left, claims)
      decreases |left|
    {
      var board := PickAny(left);
      claims := GatherBoard(edges, edges.Keys - left, board, claims);
      if edges[board] != [] {
        boardTop := boardTop[board := TopKeys(edges[board])];
      }
      TopsOneMore(edges, edges.Keys - left, board);
      assert edges.Keys - left + {board} == edges.Keys - (left - {board});
      left := left - {board};
    }
    assert edges.Keys - left == edges.Keys;
    exact, ambiguous := SettleBoards(edges, boardTop, claims);
    AllMutualBestsAreExact(edges, exact);
  }

  ghost predicate Settled(edges: Edges, done: set<int>, exact: map<int, string>, ambiguous: map<int, set<string>>) {
    && exact.Keys !! ambiguous.Keys && exact.Keys + ambiguous.Keys == done
    && (forall b :: b in exact ==> MutualBest(edges, b, exact[b]))
    && (forall b :: b in ambiguous ==> b in edges && edges[b] != [] && ambiguous[b] == TopKeys(edges[b]))
    && (forall b, k :: b in ambiguous ==> !MutualBest(edges, b, k))
  }

  lemma SettleOne(edges: Edges, done: set<int>, exact: map<int, string>, ambiguous: map<int, set<string>>, board: int,
                  link: Option<string>)
    requires Settled(edges, done, exact, ambiguous) && board !in done && board in edges && edges[board] != []
    requires if link.Some? then MutualBest(edges, board, link.value) else forall k :: !MutualBest(edges, board, k)
    ensures if link.Some? then Settled(edges, done + {board}, exact[board := link.value], ambiguous)
            else Settled(edges, done + {board}, exact, ambiguous[board := TopKeys(edges[board])])
  {
    if link.Some? {
      assert exact[board := link.value].Keys == exact.Keys + {board};
    } else {
      assert ambiguous[board := TopKeys(edges[board])].Keys == ambiguous.Keys + {board};
    }
  }

  method SettleBoard(edges: Edges, ghost done: set<int>, board: int, candidates: set<string>,
                     claims: map<string, seq<Claim>>,
                     exact0: map<int, string>, ambiguous0: map<int, set<string>>)
    returns (exact: map<int, string>, ambiguous: map<int, set<string>>)
    requires Settled(edges, done, exact0, ambiguous0) && board !in done
    requires board in edges && edges[board] != [] && candidates == TopKeys(edges[board])
    requires Gathered(edges, edges.Keys, claims)
    ensures Settled(edges, done + {board}, exact, ambiguous)
  {
    exact, ambiguous := exact0, ambiguous0;
    var link := LinkOf(edges, board, candidates, claims);
    SettleOne(edges, done, exact, ambiguous, board, link);
    if link.Some? {
      exact := exact[board := link.value];
    } else {
      ambiguous := ambiguous[board := candidates];
    }
  }

  method SettleBoards(edges: Edges, boardTop: map<int, set<string>>, claims: map<string, seq<Claim>>)
    returns (exact: map<int, string>, ambiguous: map<int, set<string>>)
    requires forall b :: b in boardTop ==> b in edges && edges[b] != [] && boardTop[b] == TopKeys(edges[b])
    requires Gathered(edges, edges.Keys, claims)
    ensures Settled(edges, boardTop.Keys, exact, ambiguous)
  {
    exact, ambiguous := map[], map[];
    var left := boardTop.Keys;
    while left != {}
      invariant left <= boardTop.Keys
      invariant Settled(edges, boardTop.Keys - left, exact, ambiguous)
      decreases |left|
    {
      var board := PickAny(left);
      exact, ambiguous := SettleBoard(edges, boardTop.Keys - left, board, boardTop[board], claims, exact, ambiguous);
      assert boardTop.Keys - (left - {board}) == boardTop.Keys - left + {board};
      left := left - {board};
    }
    assert boardTop.Keys - left == boardTop.Keys;
  }

  method LinkOf(edges: Edges, board: int, candidates: set<string>, claims: map<string, seq<Claim>>)
    returns (link: Option<string>)
    requires board in edges && edges[board] != [] && candidates == TopKeys(edges[board])
    requires Gathered(edges, edges.Keys, claims)
    ensures link.Some? ==> MutualBest(edges, board, link.value)
    ensures link.None? ==> forall k :: !MutualBest(edges, board, k)
  {
    link := None;
    forall k {
      ExactMeansMutualBest(edges, claims, board, k);
    }
    if |candidates| == 1 {
      var key :| key in candidates;
      OnlyMember(candidates, key);
      if key in claims && TopBoards(claims[key]) == {board} {
        link := Some(key);
      } else {
        assert forall k :: k != key ==> k !in candidates;
      }
    } else {
      assert forall k: string :: |{k}| == 1;
    }
  }

  lemma AllMutualBestsAreExact(edges: Edges, exact: map<int, string>)
    requires forall b :: b in exact ==> MutualBest(edges, b, exact[b])
    requires forall b, k :: b in edges && edges[b] != [] && b !in exact ==> !MutualBest(edges, b, k)
    ensures forall b, k :: b in exact && exact[b] == k <==> MutualBest(edges, b, k)
  {
    forall b, k | MutualBest(edges, b, k) ensures b in exact && exact[b] == k {
      var s :| BestByScore(edges, b, k, s);
      assert HasEdge(edges, b, Edge(s, k));
      BestCandidateIsUnique(edges, b, k, exact[b]);
    }
  }

  lemma OnlyMember(s: set<string>, x: string)
    requires |s| == 1 && x in s
    ensures s == {x}
  {
    assert |s - {x}| == 0;
  }

  lemma BestCandidateIsUnique(edges: Edges, board: int, k: string, l: string)
    requires MutualBest(edges, board, k) && MutualBest(edges, board, l)
    ensures k == l
  {
    var s :| BestByScore(edges, board, k, s);
    var t :| BestByScore(edges, board, l, t);
    assert HasEdge(edges, board, Edge(s, k)) && HasEdge(edges, board, Edge(t, l));
  }

  /** No match is linked to two boards. */
  lemma ExactLinksAreOneToOne(edges: Edges, a: int, b: int, key: string)
    requires MutualBest(edges, a, key) && MutualBest(edges, b, key)
    ensures a == b
  {
    var s :| BestByScore(edges, a, key, s);
    var t :| BestByScore(edges, b, key, t);
    assert HasEdge(edges, a, Edge(s, key)) && HasEdge(edges, b, Edge(t, key));
  }

  // ---------- Stable assignments ----------

  // Board and candidate both score higher together than in whatever they are assigned to.
  ghost predicate Blocks(chosen: map<int, Edge>, board: int, e: Edge) {
    && (board in chosen ==> chosen[board].score < e.score)
    && (forall b :: b in chosen && chosen[b].key == e.key ==> chosen[b].score < e.score)
  }

  // A one-to-one choice of edges that no edge blocks.
  ghost predicate StableAssignment(pool: set<(int, Edge)>, chosen: map<int, Edge>) {
    && (forall b :: b in chosen ==> (b, chosen[b]) in pool)
    && (forall a, b :: a in chosen && b in chosen && chosen[a].key == chosen[b].key ==> a == b)
    && (forall b, e :: (b, e) in pool ==> !Blocks(chosen, b, e))
  }

  ghost function Pool(edges: Edges): set<(int, Edge)> {
    set b, e | b in edges && e in edges[b] :: (b, e)
  }

  /** An exact link is part of every stable one-to-one assignment over the same edges. */
  lemma ExactLinksAreInEveryStableAssignment(edges: Edges, board: int, key: string, chosen: map<int, Edge>)
    requires MutualBest(edges, board, key) && StableAssignment(Pool(edges), chosen)
    ensures board in chosen && chosen[board].key == key
  {
    var s :| BestByScore(edges, board, key, s);
    var e := Edge(s, key);
    assert HasEdge(edges, board, e) && (board, e) in Pool(edges);
    if board !in chosen || chosen[board].key != key {
      if board in chosen {
        assert (board, chosen[board]) in Pool(edges) && HasEdge(edges, board, chosen[board]);
      }
      forall b | b in chosen && chosen[b].key == key ensures chosen[b].score < s {
        assert (b, chosen[b]) in Pool(edges) && HasEdge(edges, b, Edge(chosen[b].score, key));
      }
      assert Blocks(chosen, board, e);
    }
  }

  lemma {:induction false} HighestEdge(pool: set<(int, Edge)>) returns (top: (int, Edge))
    requires pool != {}
    ensures top in pool && forall x :: x in pool ==> x.1.score <= top.1.score
  {
    top :| top in pool;
    if pool - {top} != {} {
      var other := HighestEdge(pool - {top});
      if top.1.score < other.1.score {
        top := other;
      }
    }
  }

  /** Such an assignment always exists, so the statement above is never vacuous. */
  lemma {:induction false} StableAssignmentExists(pool: set<(int, Edge)>) returns (chosen: map<int, Edge>)
    ensures StableAssignment(pool, chosen)
    decreases |pool|
  {
    if pool == {} {
      chosen := map[];
    } else {
      var top := HighestEdge(pool);
      var rest := set x | x in pool && x.0 != top.0 && x.1.key != top.1.key;
      assert rest <= pool && top in pool - rest;
      SmallerPool(rest, pool, top);
      var others := StableAssignmentExists(rest);
      chosen := others[top.0 := top.1];
      forall b, e | (b, e) in pool ensures !Blocks(chosen, b, e) {
        if (b, e) in rest {
          assert !Blocks(others, b, e);
          if b in others && e.score <= others[b].score {
            assert chosen[b] == others[b];
          } else {
            var c :| c in others && others[c].key == e.key && e.score <= others[c].score;
            assert (c, others[c]) in rest && chosen[c] == others[c];
          }
        } else {
          assert chosen[top.0] == top.1;
        }
      }
    }
  }

  lemma SmallerPool(rest: set<(int, Edge)>, pool: set<(int, Edge)>, top: (int, Edge))
    requires rest <= pool && top in pool && top !in rest
    ensures |rest| < |pool|
  {
    assert pool == rest + (pool - rest);
    assert |pool| == |rest| + |pool - rest|;
  }
}
