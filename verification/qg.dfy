/**
 * The wire vocabulary shared by the game packages: commands, events and
 * leaderboards (the generated `qg` types), with the dispatch tag of each
 * command.
 */
module Qg {
  import opened Wrappers
  import Cando
  import Board

  type PlayerName = string
  type GameID = string

  datatype Command =
    | JoinGame(gameId: GameID, playerName: PlayerName, password: Option<string>)
    | BeginGame
    | ChooseQuestion(category: int, question: int)
    | PressButton
    | PlayerJudgment(correct: bool)

  /** The engine tag of a command's dynamic type. No command has the
      terminal marker's type. */
  function TagOf(cmd: Command): (t: Cando.Tag)
    ensures t != Cando.EndReaction
    ensures cmd.JoinGame? <==> t == Cando.JoinGame
    ensures cmd.BeginGame? <==> t == Cando.BeginGame
    ensures cmd.ChooseQuestion? <==> t == Cando.ChooseQuestion
    ensures cmd.PressButton? <==> t == Cando.PressButton
    ensures cmd.PlayerJudgment? <==> t == Cando.PlayerJudgment
  {
    match cmd
    case JoinGame(_, _, _) => Cando.JoinGame
    case BeginGame => Cando.BeginGame
    case ChooseQuestion(_, _) => Cando.ChooseQuestion
    case PressButton => Cando.PressButton
    case PlayerJudgment(_) => Cando.PlayerJudgment
  }

  datatype LeaderboardEntry = LeaderboardEntry(playerName: PlayerName, score: int)

  datatype Event =
    | PlayerJoined(playerName: PlayerName)
    | JoinedGame(gameId: GameID, info: Board.JeopardyGameInfo, data: Option<Board.JeopardyGameData>, isAdmin: bool)
    | GameStarted
    | GameEnded(leaderboard: seq<LeaderboardEntry>)
    | TurnEnded(chooser: PlayerName, leaderboard: seq<LeaderboardEntry>)
    | ResumeButton(alreadyAnsweredPlayers: set<PlayerName>)
    | BeginQuestion(chooser: PlayerName, category: int, question: int, points: int)
    | ButtonPressed(playerName: PlayerName)

  // ---------------------------------------------------------------------------
  // Leaderboards
  // ---------------------------------------------------------------------------

  /** Scores never increase along the board. */
  predicate SortedByScore(lb: seq<LeaderboardEntry>) {
    forall i, j :: 0 <= i < j < |lb| ==> lb[i].score >= lb[j].score
  }

  /** Each score is at most the one before it. */
  predicate Descending(lb: seq<LeaderboardEntry>) {
    forall i :: 0 < i < |lb| ==> lb[i - 1].score >= lb[i].score
  }

  lemma {:induction false} DescendingIsSorted(lb: seq<LeaderboardEntry>)
    requires Descending(lb)
    ensures SortedByScore(lb)
    decreases |lb|
  {
    if |lb| > 1 {
      var tail := lb[1..];
      assert Descending(tail) by {
        forall i | 0 < i < |tail| ensures tail[i - 1].score >= tail[i].score {
          assert tail[i - 1] == lb[i] && tail[i] == lb[i + 1];
        }
      }
      DescendingIsSorted(tail);
      forall i, j | 0 <= i < j < |lb| ensures lb[i].score >= lb[j].score {
        assert tail[j - 1] == lb[j];
        if i > 0 {
          assert tail[i - 1] == lb[i];
        } else if j > 1 {
          assert tail[0] == lb[1];
        }
      }
    }
  }

  /** Inserts an entry into a descending board before the first entry it is
      not below. */
  function Insert(e: LeaderboardEntry, lb: seq<LeaderboardEntry>): (r: seq<LeaderboardEntry>)
    requires Descending(lb)
    ensures Descending(r)
    ensures multiset(r) == multiset(lb) + multiset{e}
    ensures r[0] == e || (lb != [] && r[0] == lb[0])
    decreases |lb|
  {
    if lb == [] || e.score >= lb[0].score then [e] + lb
    else
      var rest := Insert(e, lb[1..]);
      assert lb == [lb[0]] + lb[1..];
      [lb[0]] + rest
  }

  /** Orders entries by descending score. Go's sort.Slice is not stable, so
      any order of tied entries is allowed; this is one of them. */
  function SortByScore(es: seq<LeaderboardEntry>): (r: seq<LeaderboardEntry>)
    ensures Descending(r)
    ensures multiset(r) == multiset(es)
    decreases |es|
  {
    if es == [] then []
    else
      assert es == [es[0]] + es[1..];
      Insert(es[0], SortByScore(es[1..]))
  }

  /** The elements of a finite set in some order, each once: the order of Go's
      map iteration, which the runtime chooses. */
  ghost function SetToSeq(s: set<PlayerName>): (r: seq<PlayerName>)
    ensures |r| == |s|
    ensures forall x :: x in r <==> x in s
    ensures forall i, j :: 0 <= i < j < |r| ==> r[i] != r[j]
  {
    if s == {} then []
    else
      var x :| x in s;
      var rest := SetToSeq(s - {x});
      [x] + rest
  }

  /** The entries for `names`, in that order. */
  function EntriesOf(scores: map<PlayerName, int>, names: seq<PlayerName>): (es: seq<LeaderboardEntry>)
    requires forall n :: n in names ==> n in scores
    ensures |es| == |names|
    ensures forall i :: 0 <= i < |names| ==> es[i] == LeaderboardEntry(names[i], scores[names[i]])
  {
    seq(|names|, i requires 0 <= i < |names| => LeaderboardEntry(names[i], scores[names[i]]))
  }

  /** The leaderboard the engine's reactors publish: one entry per key of
      `scores`, sorted by descending score, ties in an unspecified order. */
  ghost function BuildLeaderboard(scores: map<PlayerName, int>): (lb: seq<LeaderboardEntry>)
    ensures SortedByScore(lb)
    ensures |lb| == |scores|
    ensures forall i :: 0 <= i < |lb| ==> lb[i].playerName in scores && lb[i].score == scores[lb[i].playerName]
    ensures forall n :: n in scores ==> LeaderboardEntry(n, scores[n]) in lb
    ensures forall i, j :: 0 <= i < j < |lb| ==> lb[i].playerName != lb[j].playerName
  {
    var names := SetToSeq(scores.Keys);
    var lb := SortByScore(EntriesOf(scores, names));
    LeaderboardFacts(scores, names, lb);
    lb
  }

  lemma LeaderboardFacts(scores: map<PlayerName, int>, names: seq<PlayerName>, lb: seq<LeaderboardEntry>)
    requires |names| == |scores|
    requires forall n :: n in names <==> n in scores
    requires forall i, j :: 0 <= i < j < |names| ==> names[i] != names[j]
    requires Descending(lb) && multiset(lb) == multiset(EntriesOf(scores, names))
    ensures SortedByScore(lb)
    ensures |lb| == |scores|
    ensures forall i :: 0 <= i < |lb| ==> lb[i].playerName in scores && lb[i].score == scores[lb[i].playerName]
    ensures forall n :: n in scores ==> LeaderboardEntry(n, scores[n]) in lb
    ensures forall i, j :: 0 <= i < j < |lb| ==> lb[i].playerName != lb[j].playerName
  {
    var es := EntriesOf(scores, names);
    DescendingIsSorted(lb);
    SameElements(lb, es);
    assert forall i :: 0 <= i < |lb| ==> lb[i].playerName in scores && lb[i].score == scores[lb[i].playerName] by {
      forall i | 0 <= i < |lb| ensures lb[i].playerName in scores && lb[i].score == scores[lb[i].playerName] {
        assert lb[i] in es;
      }
    }
    assert forall n :: n in scores ==> LeaderboardEntry(n, scores[n]) in lb by {
      forall n | n in scores ensures LeaderboardEntry(n, scores[n]) in lb {
        var k :| 0 <= k < |names| && names[k] == n;
        assert es[k] == LeaderboardEntry(n, scores[n]);
      }
    }
    assert forall i, j :: 0 <= i < j < |es| ==> es[i] != es[j];
    forall i, j | 0 <= i < |lb| && 0 <= j < |lb| && lb[i].playerName == lb[j].playerName
      ensures lb[i] == lb[j]
    {
      assert lb[i].score == scores[lb[i].playerName] && lb[j].score == scores[lb[j].playerName];
    }
    NamesDistinct(lb, es);
  }

  /** Two permutations of each other hold the same entries. */
  lemma SameElements(a: seq<LeaderboardEntry>, b: seq<LeaderboardEntry>)
    requires multiset(a) == multiset(b)
    ensures |a| == |b|
    ensures forall e :: e in a <==> e in b
  {
    assert |a| == |multiset(a)| == |multiset(b)| == |b|;
    forall e ensures e in a <==> e in b {
      assert e in a <==> e in multiset(a);
      assert e in b <==> e in multiset(b);
    }
  }

  /** A permutation of duplicate-free entries in which a name determines its
      entry has no name twice. */
  lemma NamesDistinct(lb: seq<LeaderboardEntry>, es: seq<LeaderboardEntry>)
    requires multiset(lb) == multiset(es)
    requires forall i, j :: 0 <= i < j < |es| ==> es[i] != es[j]
    requires forall i, j :: 0 <= i < |lb| && 0 <= j < |lb| && lb[i].playerName == lb[j].playerName ==> lb[i] == lb[j]
    ensures forall i, j :: 0 <= i < j < |lb| ==> lb[i].playerName != lb[j].playerName
  {
    forall i, j | 0 <= i < j < |lb| ensures lb[i].playerName != lb[j].playerName {
      if lb[i].playerName == lb[j].playerName {
        var x := lb[i];
        assert lb == lb[..i] + [x] + lb[i + 1..j] + [lb[j]] + lb[j + 1..];
        assert multiset(lb)[x] >= 2;
        OnlyOnce(es, x);
        assert false;
      }
    }
  }

  /** In a duplicate-free sequence each value occurs at most once. */
  lemma {:induction false} OnlyOnce(es: seq<LeaderboardEntry>, e: LeaderboardEntry)
    requires forall i, j :: 0 <= i < j < |es| ==> es[i] != es[j]
    ensures multiset(es)[e] <= 1
    decreases |es|
  {
    if es != [] {
      assert es == [es[0]] + es[1..];
      OnlyOnce(es[1..], e);
      if es[0] == e {
        assert e !in es[1..];
      }
    }
  }
}
