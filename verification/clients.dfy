/** The dashboard's client ranking: the clients with the most won bids in the
    window, at most five, in non-increasing order of wins. */
module TopClients {
  import opened Wrappers
  import opened Bids
  import opened Windows

  /** How many bids a client has won. */
  datatype ClientWins = ClientWins(client: string, wins: nat)

  /** The maximum number of clients the ranking shows. */
  const RankingSize: nat := 5

  /** The number of won bids of `client` (the reference count). */
  function WinsOf(bids: seq<Bid>, client: string): nat {
    if |bids| == 0 then 0
    else (if bids[0].status == Won && bids[0].client == client then 1 else 0) + WinsOf(bids[1..], client)
  }

  function ClientsOf(t: seq<ClientWins>): set<string> {
    if |t| == 0 then {} else {t[0].client} + ClientsOf(t[1..])
  }

  /** No client is listed twice. */
  predicate DistinctClients(t: seq<ClientWins>) {
    |t| == 0 || (t[0].client !in ClientsOf(t[1..]) && DistinctClients(t[1..]))
  }

  predicate Positive(t: seq<ClientWins>) {
    forall i :: 0 <= i < |t| ==> t[i].wins > 0
  }

  /** The wins a tally records for `client`, 0 when it lists no such client. */
  function WinsIn(t: seq<ClientWins>, client: string): nat {
    if |t| == 0 then 0
    else (if t[0].client == client then t[0].wins else 0) + WinsIn(t[1..], client)
  }

  /** Records one more win of `client`. */
  function Bump(t: seq<ClientWins>, client: string): (r: seq<ClientWins>)
    ensures ClientsOf(r) == ClientsOf(t) + {client}
    ensures DistinctClients(t) ==> DistinctClients(r)
    ensures Positive(t) ==> Positive(r)
    ensures forall c :: WinsIn(r, c) == WinsIn(t, c) + (if c == client then 1 else 0)
  {
    if |t| == 0 then
      var r := [ClientWins(client, 1)];
      assert r[1..] == [];
      r
    else if t[0].client == client then
      var r := [ClientWins(client, t[0].wins + 1)] + t[1..];
      assert r[1..] == t[1..];
      r
    else
      var rest := Bump(t[1..], client);
      var r := [t[0]] + rest;
      assert r[1..] == rest;
      r
  }

  /** The win count of every client with at least one won bid among `bids`. */
  function Tally(bids: seq<Bid>): (r: seq<ClientWins>)
    ensures DistinctClients(r)
    ensures Positive(r)
    ensures forall c :: WinsIn(r, c) == WinsOf(bids, c)
  {
    if |bids| == 0 then []
    else if bids[0].status == Won then Bump(Tally(bids[1..]), bids[0].client)
    else Tally(bids[1..])
  }

  /** Each entry's client is listed, and each listed client has an entry. */
  lemma {:induction false} ClientsOfIndex(t: seq<ClientWins>, c: string)
    ensures c in ClientsOf(t) <==> exists i :: 0 <= i < |t| && t[i].client == c
    decreases |t|
  {
    if |t| > 0 {
      ClientsOfIndex(t[1..], c);
      if c in ClientsOf(t[1..]) {
        var i :| 0 <= i < |t[1..]| && t[1..][i].client == c;
        assert t[i + 1].client == c;
      }
      if exists i :: 0 <= i < |t| && t[i].client == c {
        var i :| 0 <= i < |t| && t[i].client == c;
        if i > 0 {
          assert t[1..][i - 1].client == c;
        }
      }
    }
  }

  /** In a tally without repeated clients, an entry holds all of its client's wins. */
  lemma {:induction false} EntryHoldsWins(t: seq<ClientWins>, i: nat)
    requires DistinctClients(t) && i < |t|
    ensures WinsIn(t, t[i].client) == t[i].wins
    decreases |t|
  {
    if i == 0 {
      AbsentClient(t[1..], t[0].client);
    } else {
      assert t[i] == t[1..][i - 1];
      ClientsOfIndex(t[1..], t[i].client);
      EntryHoldsWins(t[1..], i - 1);
    }
  }

  /** A client a tally does not list has no wins in it. */
  lemma {:induction false} AbsentClient(t: seq<ClientWins>, c: string)
    requires c !in ClientsOf(t)
    ensures WinsIn(t, c) == 0
    decreases |t|
  {
    if |t| > 0 {
      AbsentClient(t[1..], c);
    }
  }

  /** The clients of a tally of positive entries are those it records wins for. */
  lemma {:induction false} ListedIffWins(t: seq<ClientWins>, c: string)
    requires Positive(t)
    ensures c in ClientsOf(t) <==> WinsIn(t, c) > 0
    decreases |t|
  {
    if |t| > 0 {
      assert Positive(t[1..]) by {
        assert forall i :: 0 <= i < |t[1..]| ==> t[1..][i] == t[i + 1];
      }
      ListedIffWins(t[1..], c);
    }
  }

  /** Adjacent entries never increase in wins. */
  predicate NonIncreasing(s: seq<ClientWins>) {
    forall i :: 0 <= i < |s| - 1 ==> s[i].wins >= s[i + 1].wins
  }

  /** Inserts `x` before the first entry with no more wins than `x`. */
  function Insert(x: ClientWins, s: seq<ClientWins>): (r: seq<ClientWins>)
    ensures multiset(r) == multiset(s) + multiset{x}
    ensures |r| == |s| + 1 && (r[0] == x || (|s| > 0 && r[0] == s[0]))
    ensures NonIncreasing(s) ==> NonIncreasing(r)
  {
    if |s| == 0 then
      var r := [x];
      assert r[1..] == [];
      r
    else if x.wins >= s[0].wins then
      var r := [x] + s;
      assert r[1..] == s;
      r
    else
      var rest := Insert(x, s[1..]);
      var r := [s[0]] + rest;
      assert multiset(r) == multiset{s[0]} + multiset(rest);
      assert s == [s[0]] + s[1..];
      assert multiset(s) == multiset{s[0]} + multiset(s[1..]);
      assert |s| > 1 ==> s[1] == s[1..][0];
      assert forall i :: 1 <= i < |r| ==> r[i] == rest[i - 1];
      r
  }

  /** Inserting an entry adds its client to the listed ones, and keeps the
      clients distinct when it was not listed. */
  lemma {:induction false} InsertClients(x: ClientWins, s: seq<ClientWins>)
    ensures ClientsOf(Insert(x, s)) == ClientsOf(s) + {x.client}
    ensures DistinctClients(s) && x.client !in ClientsOf(s) ==> DistinctClients(Insert(x, s))
    decreases |s|
  {
    var r := Insert(x, s);
    if |s| == 0 {
      assert r == [x];
      assert r[1..] == [];
    } else if x.wins >= s[0].wins {
      assert r == [x] + s;
      assert r[1..] == s;
    } else {
      var rest := Insert(x, s[1..]);
      assert r == [s[0]] + rest;
      assert r[1..] == rest;
      InsertClients(x, s[1..]);
    }
  }

  /** Insertion sort into non-increasing order of wins. */
  function SortByWins(t: seq<ClientWins>): (r: seq<ClientWins>)
    ensures multiset(r) == multiset(t)
    ensures NonIncreasing(r)
    ensures ClientsOf(r) == ClientsOf(t)
    ensures DistinctClients(t) ==> DistinctClients(r)
  {
    if |t| == 0 then []
    else
      assert t == [t[0]] + t[1..];
      InsertClients(t[0], SortByWins(t[1..]));
      Insert(t[0], SortByWins(t[1..]))
  }

  lemma {:induction false} NonIncreasingPairwise(s: seq<ClientWins>)
    requires NonIncreasing(s)
    ensures forall i, j :: 0 <= i < j < |s| ==> s[i].wins >= s[j].wins
    decreases |s|
  {
    if |s| > 1 {
      NonIncreasingPairwise(s[1..]);
      forall i, j | 0 <= i < j < |s|
        ensures s[i].wins >= s[j].wins
      {
        if i > 0 {
          assert s[i] == s[1..][i - 1] && s[j] == s[1..][j - 1];
        } else if j > 1 {
          assert s[1] == s[1..][0] && s[j] == s[1..][j - 1];
        }
      }
    }
  }

  lemma {:induction false} DistinctPairwise(s: seq<ClientWins>)
    requires DistinctClients(s)
    ensures forall i, j :: 0 <= i < j < |s| ==> s[i].client != s[j].client
    decreases |s|
  {
    if |s| > 0 {
      DistinctPairwise(s[1..]);
      forall i, j | 0 <= i < j < |s|
        ensures s[i].client != s[j].client
      {
        if i > 0 {
          assert s[i] == s[1..][i - 1] && s[j] == s[1..][j - 1];
        } else {
          ClientsOfIndex(s[1..], s[j].client);
          assert s[j] == s[1..][j - 1];
        }
      }
    }
  }

  /** The won-bid count of every client with a win in the window, highest first. */
  function RankedClients(bids: seq<Bid>, w: Window): (s: seq<ClientWins>)
    ensures forall i, j :: 0 <= i < j < |s| ==> s[i].wins >= s[j].wins
    ensures forall i, j :: 0 <= i < j < |s| ==> s[i].client != s[j].client
    ensures forall i :: 0 <= i < |s| ==> s[i].wins > 0 && s[i].wins == WinsOf(InWindow(bids, w), s[i].client)
    ensures forall c :: WinsOf(InWindow(bids, w), c) > 0 ==> exists k :: 0 <= k < |s| && s[k].client == c
  {
    var win := InWindow(bids, w);
    var t := Tally(win);
    var s := SortByWins(t);
    NonIncreasingPairwise(s);
    DistinctPairwise(s);
    forall i | 0 <= i < |s|
      ensures s[i].wins > 0 && s[i].wins == WinsOf(win, s[i].client)
    {
      assert s[i] in multiset(t);
      var j :| 0 <= j < |t| && t[j] == s[i];
      EntryHoldsWins(t, j);
    }
    forall c | WinsOf(win, c) > 0
      ensures exists k :: 0 <= k < |s| && s[k].client == c
    {
      ListedIffWins(t, c);
      ClientsOfIndex(s, c);
    }
    s
  }

  /** The first `RankingSize` entries, or all of them when there are fewer. */
  function Top(s: seq<ClientWins>): (r: seq<ClientWins>)
    ensures |r| <= RankingSize && |r| <= |s|
    ensures |r| == if |s| <= RankingSize then |s| else RankingSize
    ensures forall i :: 0 <= i < |r| ==> r[i] == s[i]
  {
    if |s| <= RankingSize then s else s[..RankingSize]
  }

  /** A client of a non-increasing ranking that its top leaves out has no more
      wins than the last entry of a full top. */
  lemma LeftOutOfTop(s: seq<ClientWins>, k: nat)
    requires forall i, j :: 0 <= i < j < |s| ==> s[i].wins >= s[j].wins
    requires k < |s| && s[k].client !in ClientsOf(Top(s))
    ensures |Top(s)| == RankingSize && s[k].wins <= Top(s)[RankingSize - 1].wins
  {
    var r := Top(s);
    ClientsOfIndex(r, s[k].client);
    assert |s| > RankingSize;
  }

  /** The top of the ranking: at most five clients, non-increasing in wins,
      each with its exact positive win count in the window, none repeated; a
      client with wins that is left out means five clients were shown, each
      with at least as many wins. */
  function TopClientsIn(bids: seq<Bid>, w: Window): (r: seq<ClientWins>)
    ensures |r| <= RankingSize
    ensures forall i, j :: 0 <= i < j < |r| ==> r[i].wins >= r[j].wins
    ensures forall i, j :: 0 <= i < j < |r| ==> r[i].client != r[j].client
    ensures forall i :: 0 <= i < |r| ==> r[i].wins > 0 && r[i].wins == WinsOf(InWindow(bids, w), r[i].client)
    ensures forall c :: WinsOf(InWindow(bids, w), c) > 0 && c !in ClientsOf(r) ==>
      |r| == RankingSize && WinsOf(InWindow(bids, w), c) <= r[RankingSize - 1].wins
  {
    var s := RankedClients(bids, w);
    forall c | WinsOf(InWindow(bids, w), c) > 0 && c !in ClientsOf(Top(s))
      ensures |Top(s)| == RankingSize && WinsOf(InWindow(bids, w), c) <= Top(s)[RankingSize - 1].wins
    {
      var k :| 0 <= k < |s| && s[k].client == c;
      LeftOutOfTop(s, k);
    }
    Top(s)
  }
}
