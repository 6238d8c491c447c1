/** Taking a request that did not commit out of a run: nobody else can tell the difference. */
module Erasure {
  import opened Schema
  import opened Program
  import opened Store

  function Without(acts: seq<Action>, c: nat): seq<Action> {
    if acts == [] then [] else (if acts[0].client == c then [] else [acts[0]]) + Without(acts[1..], c)
  }

  /** The same committed states, log, versions and other clients. */
  function Erased(w: World, c: nat): World {
    w.(clients := w.clients - {c})
  }

  /** With one client fewer, every other can do what it did: there is less to wait for. */
  lemma OthersCanStill(cfg: Config, w: World, act: Action, c: nat)
    requires Enabled(w, act) && act.client != c
    ensures Enabled(Erased(w, c), act)
  {
    hide Holds, Issues, NextStmt;
    if act.Exec? {
      var stmt := NextStmt(w.clients[act.client].stage, w.clients[act.client].req);
      assert Blocked(Erased(w, c), act.client, stmt) ==> Blocked(w, act.client, stmt);
    }
  }

  lemma OthersDoTheSame(cfg: Config, w: World, act: Action, c: nat)
    requires Enabled(w, act) && act.client != c && Enabled(Erased(w, c), act)
    ensures Next(cfg, Erased(w, c), act) == Erased(Next(cfg, w, act), c)
  {
    hide Perform, Advance, Blocked;
    var here, there := Next(cfg, Erased(w, c), act), Erased(Next(cfg, w, act), c);
    if act.Exec? {
      PerformIgnoresClients(cfg, w, act.client, c);
    }
    assert here.clients == there.clients;
  }

  lemma PerformIgnoresClients(cfg: Config, w: World, d: nat, c: nat)
    requires d in w.clients && Issues(w.clients[d].stage, w.clients[d].req)
    ensures var stmt, tx := NextStmt(w.clients[d].stage, w.clients[d].req), w.clients[d].tx;
            Perform(cfg, Erased(w, c), tx, stmt) == Perform(cfg, w, tx, stmt)
  {
  }

  lemma {:induction false} EndedStays(cfg: Config, w: World, acts: seq<Action>, w': World, c: nat)
    requires Leads(cfg, w, acts, w') && c in w.clients && w.clients[c].stage.Ended?
    ensures c in w'.clients && w'.clients[c] == w.clients[c]
    decreases |acts|
  {
    if acts != [] {
      EndedStays(cfg, Next(cfg, w, acts[0]), acts[1..], w', c);
    }
  }

  lemma {:induction false} RunWithout(cfg: Config, w: World, acts: seq<Action>, w': World, c: nat)
    requires Leads(cfg, w, acts, w') && (c in w'.clients ==> !Landed(w'.clients[c].stage))
    ensures Leads(cfg, Erased(w, c), Without(acts, c), Erased(w', c))
    decreases |acts|
  {
    hide Enabled, Next;
    if acts != [] {
      var act, next := acts[0], Next(cfg, w, acts[0]);
      RunWithout(cfg, next, acts[1..], w', c);
      if act.client == c {
        OwnStepIsLost(cfg, w, acts, w', c);
        assert [] + Without(acts[1..], c) == Without(acts[1..], c);
      } else {
        OthersCanStill(cfg, w, act, c);
        OthersDoTheSame(cfg, w, act, c);
        assert Without(acts, c)[1..] == Without(acts[1..], c);
      }
    }
  }

  /** What a request does that never commits shows in its own client only. */
  lemma OwnStepIsLost(cfg: Config, w: World, acts: seq<Action>, w': World, c: nat)
    requires acts != [] && acts[0].client == c
    requires Leads(cfg, w, acts, w') && (c in w'.clients ==> !Landed(w'.clients[c].stage))
    ensures Erased(Next(cfg, w, acts[0]), c) == Erased(w, c)
  {
    if acts[0].Commit? {
      EndedStays(cfg, Next(cfg, w, acts[0]), acts[1..], w', c);
    } else {
      assert Erased(Next(cfg, w, acts[0]), c).clients == Erased(w, c).clients;
    }
  }
}
