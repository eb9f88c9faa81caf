/**
 How a block decides its due proposals, all at once: what the loop of EndBlocker
 stores for each of them, said in terms of the state before the loop.
 */
module DaoOutcome {
  import opened Wrappers
  import opened MapTotals
  import opened Bank
  import opened Environment
  import opened Names
  import opened Registry
  import opened Walks
  import opened DaoTypes
  import opened Dao
  import opened DaoInvariant
  import opened DaoSettlement

  function TldOf(w: World, id: nat): string
    requires id in w.dao.proposals && w.dao.proposals[id].content.AddTld?
  {
    ToLower(w.dao.proposals[id].content.tld)
  }

  ghost predicate WinsTld(w: World, id: nat, tld: string) {
    && id in w.dao.proposals && w.dao.proposals[id].content.AddTld?
    && Wins(w.dao, id) && TldOf(w, id) == tld
  }

  /** Another of these proposals, with a smaller id, wins the same label. */
  ghost predicate TakenEarlier(w: World, ids: set<nat>, id: nat, tld: string) {
    exists j :: j in ids && j < id && WinsTld(w, j, tld)
  }

  /**
   The final status of `id` when the proposals `ids` are settled from w: the
   order matters only for two winners of the same label, of which the one with
   the smaller id gets it.
   */
  ghost function Outcome(env: Env, w: World, ids: set<nat>, id: nat): Status
    requires id in w.dao.proposals
  {
    var c := w.dao.proposals[id].content;
    if !Wins(w.dao, id) then Rejected
    else
      var failed := match c
        case AddTld(tld, _) => ToLower(tld) in w.registry.tlds || TakenEarlier(w, ids, id, ToLower(tld))
        case RequestTokens(recipient, _, _) =>
          env.parseAddress(recipient).Some? && IsBlocked(env.parseAddress(recipient).value);
      if failed then Failed else Executed
  }

  /** The labels that these proposals win. */
  ghost function WonTlds(w: World, ids: set<nat>): set<string> {
    set id | id in ids && id in w.dao.proposals && w.dao.proposals[id].content.AddTld? && Wins(w.dao, id) ::
      TldOf(w, id)
  }

  lemma SettledStatus(env: Env, w: World, id: nat)
    requires WorldOk(env, w) && IsActive(w.dao, id)
    ensures Settle(env, w, id).dao.proposals[id].status == Outcome(env, w, {}, id)
  {
    hide Settle, WorldOk, Wins;
    SettleShape(env, w, id);
    if Wins(w.dao, id) {
      if w.dao.proposals[id].content.AddTld? {
        SettleAddTld(env, w, id);
      } else {
        SettleGrant(env, w, id);
      }
    }
  }

  lemma SettledTlds(env: Env, w: World, id: nat)
    requires WorldOk(env, w) && IsActive(w.dao, id)
    ensures Settle(env, w, id).registry.tlds == w.registry.tlds + WonTlds(w, {id})
  {
    hide TallyOf, Wins, SettleDeposit, IsReservedTld, ToLower, Solvent, Sound, RegistryOk;
    assert ProposalOk(env, w.dao, id);
    var c := w.dao.proposals[id].content;
    if c.AddTld? && Wins(w.dao, id) {
      ExecuteAddTld(env, w, id, c);
      assert WonTlds(w, {id}) == {ToLower(c.tld)};
    } else {
      assert WonTlds(w, {id}) == {};
    }
  }

  lemma SettledVotes(env: Env, w: World, id: nat)
    requires WorldOk(env, w) && IsActive(w.dao, id)
    ensures Settle(env, w, id).dao.votes == w.dao.votes && Settle(env, w, id).dao.params == w.dao.params
  {
    hide Settle, WorldOk;
    SettleShape(env, w, id);
  }

  ghost function Ids(ids: seq<nat>): set<nat> {
    set i | 0 <= i < |ids| :: ids[i]
  }

  /** w1 is w after settling the proposals `done`, as far as later decisions can tell. */
  ghost predicate Settled(env: Env, w: World, done: set<nat>, w1: World) {
    && w1.dao.votes == w.dao.votes && w1.dao.params == w.dao.params
    && w1.registry.tlds == w.registry.tlds + WonTlds(w, done)
    && (forall id <- w.dao.proposals :: id in w1.dao.proposals &&
          if id in done then w1.dao.proposals[id].status == Outcome(env, w, done, id)
          else w1.dao.proposals[id] == w.dao.proposals[id])
  }

  lemma WonMember(w: World, ids: set<nat>, id: nat, tld: string)
    requires forall j <- ids :: j < id
    ensures tld in WonTlds(w, ids) <==> TakenEarlier(w, ids, id, tld)
  {
    hide Wins, ToLower;
    if tld in WonTlds(w, ids) {
      var j :| j in ids && j in w.dao.proposals && w.dao.proposals[j].content.AddTld? && Wins(w.dao, j)
               && TldOf(w, j) == tld;
      assert WinsTld(w, j, tld);
    }
  }

  /** A later proposal is decided as if it had been decided at the start. */
  lemma DecidedFromStart(env: Env, w: World, done: set<nat>, w1: World, id: nat)
    requires Settled(env, w, done, w1) && id in w.dao.proposals && forall j <- done :: j < id
    ensures id in w1.dao.proposals && Outcome(env, w1, {}, id) == Outcome(env, w, done + {id}, id)
    ensures WonTlds(w1, {id}) == WonTlds(w, {id})
  {
    hide TallyOf, ToLower;
    assert Wins(w1.dao, id) == Wins(w.dao, id);
    var c := w.dao.proposals[id].content;
    if c.AddTld? {
      var tld := ToLower(c.tld);
      WonMember(w, done, id, tld);
      assert TakenEarlier(w, done + {id}, id, tld) <==> TakenEarlier(w, done, id, tld);
      assert !TakenEarlier(w1, {}, id, tld);
    }
  }

  /** Settling a later proposal does not change how an earlier one was decided. */
  lemma EarlierStays(env: Env, w: World, done: set<nat>, id: nat, j: nat)
    requires j in done && j in w.dao.proposals && j < id
    ensures Outcome(env, w, done + {id}, j) == Outcome(env, w, done, j)
  {
    hide Wins, ToLower;
    var c := w.dao.proposals[j].content;
    if c.AddTld? {
      var tld := ToLower(c.tld);
      assert TakenEarlier(w, done + {id}, j, tld) <==> TakenEarlier(w, done, j, tld);
    }
  }

  lemma SettledOneMore(env: Env, w: World, done: set<nat>, w1: World, id: nat)
    requires WorldOk(env, w1) && IsActive(w1.dao, id)
    requires Settled(env, w, done, w1) && id in w.dao.proposals && forall j <- done :: j < id
    ensures Settled(env, w, done + {id}, Settle(env, w1, id))
  {
    hide WorldOk, Settle, Outcome, Wins, TldOf;
    var w2, all := Settle(env, w1, id), done + {id};
    SettledVotes(env, w1, id);
    SettledStatus(env, w1, id);
    SettledTlds(env, w1, id);
    SettleOnly(env, w1, id);
    DecidedFromStart(env, w, done, w1, id);
    assert WonTlds(w, all) == WonTlds(w, done) + WonTlds(w, {id});
    forall j | j in w.dao.proposals
      ensures j in w2.dao.proposals
      ensures
        if j in all then w2.dao.proposals[j].status == Outcome(env, w, all, j)
        else w2.dao.proposals[j] == w.dao.proposals[j]
    {
      if j in done { EarlierStays(env, w, done, id, j); }
    }
  }

  lemma {:induction false} SettledAll(env: Env, w: World, ids: seq<nat>)
    requires WorldOk(env, w) && IsAscending(ids)
    requires forall i :: 0 <= i < |ids| ==> IsActive(w.dao, ids[i])
    ensures Settled(env, w, Ids(ids), SettleAll(env, w, ids))
  {
    hide WorldOk, Settle, Settled;
    if ids == [] {
      assert Ids(ids) == {};
      NothingSettled(env, w);
    } else {
      var front, id := ids[..|ids| - 1], ids[|ids| - 1];
      assert ids == front + [id];
      assert forall i :: 0 <= i < |front| ==> front[i] == ids[i] < id;
      SettledAll(env, w, front);
      NextIsReady(env, w, front, id);
      SettledOneMore(env, w, Ids(front), SettleAll(env, w, front), id);
      assert Ids(ids) == Ids(front) + {id};
    }
  }

  lemma NextIsReady(env: Env, w: World, front: seq<nat>, id: nat)
    requires WorldOk(env, w) && IsAscending(front) && IsActive(w.dao, id) && id !in front
    requires forall i :: 0 <= i < |front| ==> IsActive(w.dao, front[i])
    ensures var w1 := SettleAll(env, w, front); WorldOk(env, w1) && IsActive(w1.dao, id)
  {
    hide WorldOk, SettleAll;
    SettleAllKeepsOk(env, w, front);
  }

  lemma NothingSettled(env: Env, w: World)
    ensures Settled(env, w, {}, w)
  {
    assert WonTlds(w, {}) == {};
  }

  ghost function DueSet(w: World): set<nat> {
    set id | id in w.dao.proposals && IsDue(w, id)
  }

  /**
   The end of a block, as one decision: every due proposal gets the status that
   the state before the block's end determines, with its votes counted there;
   every other proposal is left alone; and exactly the labels that won become
   permitted.
   */
  lemma EndBlockOutcome(env: Env, w: World)
    requires WorldOk(env, w)
    ensures
      var w', due := EndBlocker(env, w), DueSet(w);
      && w'.registry == w.registry.(tlds := w.registry.tlds + WonTlds(w, due))
      && w'.dao.votes == w.dao.votes && w'.dao.proposals.Keys == w.dao.proposals.Keys
      && forall id <- w.dao.proposals ::
           var t, p := TallyOf(w.dao.votes, id), w.dao.proposals[id];
           w'.dao.proposals[id] ==
             if id in due
             then p.(yesVotes := t.yes, noVotes := t.no, abstainVotes := t.abstain,
                     status := Outcome(env, w, due, id))
             else p
  {
    hide WorldOk, Settle, Outcome, WonTlds, SettleAll, Due, RegistryHistory, ForeignSupply, Surplus;
    hide TallyOf;
    DueLaw(w);
    var due, w' := Due(w), EndBlocker(env, w);
    SettledAll(env, w, due);
    assert Ids(due) == DueSet(w);
    EndBlockerKeepsOk(env, w);
    forall id | id in w.dao.proposals && IsDue(w, id) ensures TallyStored(w'.dao, id) {
      StoredTally(env, w', id);
    }
  }

  lemma StoredTally(env: Env, w: World, id: nat)
    requires WorldOk(env, w) && id in w.dao.proposals && IsFinished(w.dao.proposals[id])
    ensures TallyStored(w.dao, id)
  {
  }

  // ---------- what a block pays out ----------

  /** What the settlement of one proposal puts into an account (or takes out of the DAO's). */
  ghost function Payout(env: Env, w: World, ids: set<nat>, id: nat, x: Account, d: Denom): int
    requires id in w.dao.proposals
  {
    var p := w.dao.proposals[id];
    var deposit := AmountOf(Deposit(w.dao.params, p.content), d);
    (if Outcome(env, w, ids, id) == Executed
     then Minted(env, p.content, x, d) + if env.parseAddress(p.proposer) == Some(x) then deposit else 0
     else 0)
    - if x == DAO then deposit else 0
  }

  ghost function Payouts(env: Env, w: World, ids: set<nat>, x: Account, d: Denom): map<nat, int> {
    map id | id in ids && id in w.dao.proposals :: Payout(env, w, ids, id, x, d)
  }

  lemma PayoutsStep(env: Env, w: World, done: set<nat>, id: nat, x: Account, d: Denom)
    requires id in w.dao.proposals && forall j <- done :: j < id
    ensures
      Total(Payouts(env, w, done + {id}, x, d)) ==
        Total(Payouts(env, w, done, x, d)) + Payout(env, w, done + {id}, id, x, d)
  {
    hide Outcome, Minted, Deposit, AmountOf;
    var before, all, pay := Payouts(env, w, done, x, d), done + {id}, Payout(env, w, done + {id}, id, x, d);
    forall j | j in done && j in w.dao.proposals
      ensures Payout(env, w, all, j, x, d) == Payout(env, w, done, j, x, d)
    {
      EarlierStays(env, w, done, id, j);
    }
    assert Payouts(env, w, all, x, d) == before[id := pay];
    TotalInsert(before, id, pay);
  }

  lemma SettledPays(env: Env, w: World, done: set<nat>, w1: World, id: nat, x: Account, d: Denom)
    requires WorldOk(env, w1) && IsActive(w1.dao, id)
    requires Settled(env, w, done, w1) && id in w.dao.proposals && id !in done && forall j <- done :: j < id
    ensures
      Balance(Settle(env, w1, id).bank, x, d) == Balance(w1.bank, x, d) + Payout(env, w, done + {id}, id, x, d)
  {
    hide Settle, Outcome, Minted, Deposit, AmountOf, WonTlds;
    assert ProposalOk(env, w1.dao, id);
    SettledStatus(env, w1, id);
    DecidedFromStart(env, w, done, w1, id);
    SettleBalances(env, w1, id, x, d);
  }

  lemma {:induction false} SettledAllPays(env: Env, w: World, ids: seq<nat>, x: Account, d: Denom)
    requires WorldOk(env, w) && IsAscending(ids)
    requires forall i :: 0 <= i < |ids| ==> IsActive(w.dao, ids[i])
    ensures
      Balance(SettleAll(env, w, ids).bank, x, d) ==
        Balance(w.bank, x, d) + Total(Payouts(env, w, Ids(ids), x, d))
  {
    hide WorldOk, Settle, Settled, Payout, Balance;
    if ids == [] {
      assert Payouts(env, w, Ids(ids), x, d) == map[];
    } else {
      var front, id := ids[..|ids| - 1], ids[|ids| - 1];
      assert ids == front + [id];
      assert forall i :: 0 <= i < |front| ==> front[i] == ids[i] < id;
      SettledAllPays(env, w, front, x, d);
      SettledAll(env, w, front);
      NextIsReady(env, w, front, id);
      SettledPays(env, w, Ids(front), SettleAll(env, w, front), id, x, d);
      PayoutsStep(env, w, Ids(front), id, x, d);
      assert Ids(ids) == Ids(front) + {id};
    }
  }

  /**
   The end of a block moves exactly this: each executed proposal's deposit from
   the DAO's account back to its proposer, each other deposit out of it for
   good, and each executed grant to its recipient. No other balance changes.
   */
  lemma EndBlockPays(env: Env, w: World, x: Account, d: Denom)
    requires WorldOk(env, w)
    ensures
      Balance(EndBlocker(env, w).bank, x, d) ==
        Balance(w.bank, x, d) + Total(Payouts(env, w, DueSet(w), x, d))
  {
    hide WorldOk, Settle, SettleAll, Due, Payouts;
    DueLaw(w);
    var due := Due(w);
    SettledAllPays(env, w, due, x, d);
    assert Ids(due) == DueSet(w);
  }

  // ---------- the lots a block grants ----------

  /** A lot for each of these proposals that is executed and grants the voting token. */
  ghost function NewLots(env: Env, w: World, ids: set<nat>): map<LotKey, Lot> {
    map id | id in ids && id in w.dao.proposals && w.dao.proposals[id].content.RequestTokens?
             && w.dao.params.votingTokenDenom in w.dao.proposals[id].content.amount
             && env.parseAddress(w.dao.proposals[id].content.recipient).Some?
             && Outcome(env, w, ids, id) == Executed ::
      LotKey(env.parseAddress(w.dao.proposals[id].content.recipient).value, id) :=
        Lot(w.dao.proposals[id].content.recipient, id,
            w.dao.proposals[id].content.amount[w.dao.params.votingTokenDenom], w.height)
  }

  /** The lots after a proposal with content c ended. */
  function WithGrant(env: Env, lots: map<LotKey, Lot>, d: Denom, id: nat, c: Content, status: Status, height: nat)
    : map<LotKey, Lot>
  {
    if status == Executed && c.RequestTokens? && d in c.amount && env.parseAddress(c.recipient).Some?
    then lots[LotKey(env.parseAddress(c.recipient).value, id) := Lot(c.recipient, id, c.amount[d], height)]
    else lots
  }

  lemma NewLotsStep(env: Env, w: World, done: set<nat>, id: nat)
    requires id in w.dao.proposals && forall j <- done :: j < id
    ensures
      NewLots(env, w, done + {id}) ==
        WithGrant(env, NewLots(env, w, done), w.dao.params.votingTokenDenom, id, w.dao.proposals[id].content,
                  Outcome(env, w, done + {id}, id), w.height)
  {
    hide Outcome;
    forall j | j in done && j in w.dao.proposals
      ensures Outcome(env, w, done + {id}, j) == Outcome(env, w, done, j)
    {
      EarlierStays(env, w, done, id, j);
    }
  }

  lemma LotsAfter(env: Env, w: World, id: nat)
    requires WorldOk(env, w) && IsActive(w.dao, id)
    ensures
      Settle(env, w, id).dao.lots ==
        WithGrant(env, w.dao.lots, w.dao.params.votingTokenDenom, id, w.dao.proposals[id].content,
                  Settle(env, w, id).dao.proposals[id].status, w.height)
  {
    hide Settle, TallyOf, Wins, RegistryHistory, Sound, RegistryOk, Solvent, IsReservedTld, MatchesTldRegexp;
    SettleShape(env, w, id);
    assert ProposalOk(env, w.dao, id);
  }

  lemma GrantOnTop(env: Env, lots: map<LotKey, Lot>, more: map<LotKey, Lot>, d: Denom, id: nat, c: Content,
                   status: Status, height: nat)
    ensures
      WithGrant(env, lots + more, d, id, c, status, height)
        == lots + WithGrant(env, more, d, id, c, status, height)
  {
  }

  lemma SettledGrants(env: Env, w: World, done: set<nat>, w1: World, id: nat)
    requires WorldOk(env, w1) && IsActive(w1.dao, id) && w1.height == w.height
    requires Settled(env, w, done, w1) && id in w.dao.proposals && id !in done && forall j <- done :: j < id
    requires w1.dao.lots == w.dao.lots + NewLots(env, w, done)
    ensures Settle(env, w1, id).dao.lots == w.dao.lots + NewLots(env, w, done + {id})
  {
    hide WorldOk, Settle, Outcome, WonTlds, NewLots, WithGrant;
    SettledStatus(env, w1, id);
    DecidedFromStart(env, w, done, w1, id);
    LotsAfter(env, w1, id);
    NewLotsStep(env, w, done, id);
    GrantOnTop(env, w.dao.lots, NewLots(env, w, done), w.dao.params.votingTokenDenom, id,
               w.dao.proposals[id].content, Outcome(env, w, done + {id}, id), w.height);
  }

  lemma {:induction false} SettledAllGrants(env: Env, w: World, ids: seq<nat>)
    requires WorldOk(env, w) && IsAscending(ids)
    requires forall i :: 0 <= i < |ids| ==> IsActive(w.dao, ids[i])
    ensures SettleAll(env, w, ids).height == w.height
    ensures SettleAll(env, w, ids).dao.lots == w.dao.lots + NewLots(env, w, Ids(ids))
  {
    hide WorldOk, Settle, Settled, NewLots;
    if ids == [] {
      assert Ids(ids) == {};
      NoNewLots(env, w);
    } else {
      var front, id := ids[..|ids| - 1], ids[|ids| - 1];
      assert ids == front + [id];
      assert forall i :: 0 <= i < |front| ==> front[i] == ids[i] < id;
      SettledAllGrants(env, w, front);
      SettledAll(env, w, front);
      NextIsReady(env, w, front, id);
      SettledGrants(env, w, Ids(front), SettleAll(env, w, front), id);
      SettleKeepsOk(env, SettleAll(env, w, front), id);
      assert Ids(ids) == Ids(front) + {id};
    }
  }

  lemma NoNewLots(env: Env, w: World)
    ensures w.dao.lots == w.dao.lots + NewLots(env, w, {})
  {
    assert NewLots(env, w, {}) == map[];
  }

  /** The end of a block adds exactly the lots of the grants it executes, dated with its height. */
  lemma EndBlockGrants(env: Env, w: World)
    requires WorldOk(env, w)
    ensures EndBlocker(env, w).dao.lots == w.dao.lots + NewLots(env, w, DueSet(w))
  {
    hide WorldOk, Settle, SettleAll, Due, NewLots;
    DueLaw(w);
    var due := Due(w);
    SettledAllGrants(env, w, due);
    assert Ids(due) == DueSet(w);
  }
}
