/** The proposals of internal/multisig/multisig.go: a quorum of approvals against a veto of rejections. */
module Multisig {
  import opened Wrappers
  import opened Collections

  datatype Status = Pending | Approved | Rejected | Executed | Expired

  datatype Error =
    | WalletNotFound | WalletExists | ProposalNotFound | AlreadyApproved | AlreadyRejected
    | NotASigner | InvalidThreshold | ProposalExpired | ProposalNotPending | InsufficientApprovals

  /** Signers by user id, as given on creation: nothing keeps a user from being listed twice. */
  datatype Wallet = Wallet(address: string, threshold: int, signers: seq<nat>)

  datatype Proposal = Proposal(
    wallet: nat,
    approvals: seq<nat>,
    rejections: seq<nat>,
    status: Status,
    expiresAt: Option<int>)

  // ----- One call on one proposal -----

  function Approve(w: Wallet, p: Proposal, user: nat, now: int): (Proposal, Result<(), Error>) {
    if p.status != Pending then (p, Err(ProposalNotPending))
    else if p.expiresAt.Some? && now > p.expiresAt.value then (p.(status := Expired), Err(ProposalExpired))
    else if user !in w.signers then (p, Err(NotASigner))
    else if user in p.approvals then (p, Err(AlreadyApproved))
    else
      var approvals := p.approvals + [user];
      (p.(approvals := approvals, status := if |approvals| >= w.threshold then Approved else Pending), Ok(()))
  }

  function Reject(w: Wallet, p: Proposal, user: nat): (Proposal, Result<(), Error>) {
    if p.status != Pending then (p, Err(ProposalNotPending))
    else if user !in w.signers then (p, Err(NotASigner))
    else if user in p.rejections then (p, Err(AlreadyRejected))
    else
      var rejections := p.rejections + [user];
      (p.(rejections := rejections, status := if |rejections| > |w.signers| - w.threshold then Rejected else Pending), Ok(()))
  }

  function Execute(w: Wallet, p: Proposal): (Proposal, Result<(), Error>) {
    if p.status == Approved then (p.(status := Executed), Ok(()))
    else if p.status == Pending && |p.approvals| < w.threshold then (p, Err(InsufficientApprovals))
    else (p, Err(ProposalNotPending))
  }

  function Expire(p: Proposal, now: int): Proposal {
    if p.status == Pending && p.expiresAt.Some? && p.expiresAt.value < now then p.(status := Expired) else p
  }

  datatype Call =
    | CallApprove(user: nat, now: int)
    | CallReject(user: nat)
    | CallExecute
    | CallExpire(now: int)

  function Step(w: Wallet, p: Proposal, c: Call): Proposal {
    match c
    case CallApprove(user, now) => Approve(w, p, user, now).0
    case CallReject(user) => Reject(w, p, user).0
    case CallExecute => Execute(w, p).0
    case CallExpire(now) => Expire(p, now)
  }

  function After(w: Wallet, p: Proposal, calls: seq<Call>): Proposal {
    if calls == [] then p else Step(w, After(w, p, calls[..|calls| - 1]), calls[|calls| - 1])
  }

  predicate WalletOk(w: Wallet) {
    1 <= w.threshold <= |w.signers|
  }

  predicate Fresh(p: Proposal) {
    p.approvals == [] && p.rejections == [] && p.status == Pending
  }

  // ----- Every reachable proposal -----

  ghost predicate Ballot(w: Wallet, users: seq<nat>) {
    Distinct(users) && forall u :: u in users ==> u in w.signers
  }

  ghost predicate ProposalInv(w: Wallet, p: Proposal) {
    var veto := |w.signers| - w.threshold;
    && Ballot(w, p.approvals) && Ballot(w, p.rejections)
    && match p.status
       case Pending => |p.approvals| < w.threshold && |p.rejections| <= veto
       case Expired => |p.approvals| < w.threshold && |p.rejections| <= veto
       case Approved => |p.approvals| == w.threshold && |p.rejections| <= veto
       case Executed => |p.approvals| == w.threshold && |p.rejections| <= veto
       case Rejected => |p.approvals| < w.threshold && |p.rejections| == veto + 1
  }

  lemma CallKeepsInv(w: Wallet, p: Proposal, c: Call)
    requires WalletOk(w) && ProposalInv(w, p)
    ensures ProposalInv(w, Step(w, p, c))
  {
    if c.CallApprove? && c.user !in p.approvals {
      assert Distinct(p.approvals + [c.user]);
    }
    if c.CallReject? && c.user !in p.rejections {
      assert Distinct(p.rejections + [c.user]);
    }
  }

  /** After any calls whatever, voters are distinct signers and the counts agree with the status. */
  lemma {:induction false} ReachableInv(w: Wallet, p: Proposal, calls: seq<Call>)
    requires WalletOk(w) && Fresh(p)
    ensures ProposalInv(w, After(w, p, calls))
  {
    if calls != [] {
      ReachableInv(w, p, calls[..|calls| - 1]);
      CallKeepsInv(w, After(w, p, calls[..|calls| - 1]), calls[|calls| - 1]);
    }
  }

  /** Executed, rejected and expired are final; approved leads only to executed; votes are never withdrawn. */
  lemma StatusMovesForward(w: Wallet, p: Proposal, c: Call)
    ensures var q := Step(w, p, c);
      && (p.status in {Executed, Rejected, Expired} ==> q == p)
      && (p.status == Approved ==> q == p || (c == CallExecute && q == p.(status := Executed)))
      && (q.status == Executed ==> p.status == Executed || (p.status == Approved && c == CallExecute))
      && p.approvals <= q.approvals && p.rejections <= q.rejections
      && q.wallet == p.wallet && q.expiresAt == p.expiresAt
  {
  }

  // ----- Every signer votes once -----

  /** A vote and the time at which it is cast. */
  datatype Vote = Vote(user: nat, approve: bool, at: int)

  function Cast(v: Vote): Call {
    if v.approve then CallApprove(v.user, v.at) else CallReject(v.user)
  }

  function Casts(votes: seq<Vote>): (r: seq<Call>)
    ensures |r| == |votes| && forall i :: 0 <= i < |votes| ==> r[i] == Cast(votes[i])
  {
    seq(|votes|, i requires 0 <= i < |votes| => Cast(votes[i]))
  }

  function NewProposal(expiry: Option<int>): Proposal {
    Proposal(0, [], [], Pending, expiry)
  }

  /** The status to which the votes, cast in this order, take a new proposal. */
  function Outcome(w: Wallet, expiry: Option<int>, votes: seq<Vote>): Status {
    After(w, NewProposal(expiry), Casts(votes)).status
  }

  predicate NotLater(now: int, expiry: Option<int>) {
    expiry.None? || now <= expiry.value
  }

  /** No approval comes after the expiry; for rejections the time does not matter. */
  predicate InTime(expiry: Option<int>, votes: seq<Vote>) {
    forall i :: 0 <= i < |votes| && votes[i].approve ==> NotLater(votes[i].at, expiry)
  }

  ghost function Voters(votes: seq<Vote>): seq<nat> {
    seq(|votes|, i requires 0 <= i < |votes| => votes[i].user)
  }

  /** Those who chose the given side; it does not depend on the order of the votes. */
  ghost function Choosing(votes: seq<Vote>, side: bool): set<nat> {
    set v | v in votes && v.approve == side :: v.user
  }

  /** Every signer casts exactly one vote. */
  ghost predicate FullVote(w: Wallet, votes: seq<Vote>) {
    Distinct(Voters(votes)) && Elements(Voters(votes)) == Elements(w.signers)
  }

  ghost predicate SignersVoteOnce(w: Wallet, votes: seq<Vote>) {
    Distinct(Voters(votes)) && Elements(Voters(votes)) <= Elements(w.signers)
  }

  lemma VotesSnoc(w: Wallet, expiry: Option<int>, votes: seq<Vote>)
    requires SignersVoteOnce(w, votes) && InTime(expiry, votes) && votes != []
    ensures var front, last := votes[..|votes| - 1], votes[|votes| - 1];
      && SignersVoteOnce(w, front) && last.user in w.signers
      && InTime(expiry, front) && (last.approve ==> NotLater(last.at, expiry))
      && last.user !in Choosing(front, true) && last.user !in Choosing(front, false)
      && Choosing(votes, last.approve) == Choosing(front, last.approve) + {last.user}
      && Choosing(votes, !last.approve) == Choosing(front, !last.approve)
      && Casts(votes) == Casts(front) + [Cast(last)]
  {
    var front, last := votes[..|votes| - 1], votes[|votes| - 1];
    assert Voters(front) == Voters(votes)[..|votes| - 1];
    assert forall u :: u in Voters(front) ==> u in Voters(votes);
    assert last.user == Voters(votes)[|votes| - 1] && last.user in Elements(Voters(votes));
    forall v | v in front ensures v.user != last.user {
      var i :| 0 <= i < |front| && front[i] == v;
      assert Voters(votes)[i] == v.user;
    }
    assert forall v :: v in votes <==> v in front || v == last;
  }

  /** While undecided, the stored votes are those cast; a decision means its threshold was crossed. */
  ghost predicate Tallied(w: Wallet, p: Proposal, yes: set<nat>, no: set<nat>) {
    && p.status in {Pending, Approved, Rejected}
    && (p.status == Pending ==>
          && Elements(p.approvals) == yes && |p.approvals| == |yes| < w.threshold
          && Elements(p.rejections) == no && |p.rejections| == |no| <= |w.signers| - w.threshold)
    && (p.status == Approved ==> |yes| >= w.threshold)
    && (p.status == Rejected ==> |no| > |w.signers| - w.threshold)
  }

  lemma TallyApproval(w: Wallet, p: Proposal, yes: set<nat>, no: set<nat>, user: nat, now: int)
    requires Tallied(w, p, yes, no) && user in w.signers && user !in yes && NotLater(now, p.expiresAt)
    ensures Tallied(w, Approve(w, p, user, now).0, yes + {user}, no)
  {
    assert user in p.approvals ==> user in Elements(p.approvals);
    assert Elements(p.approvals + [user]) == Elements(p.approvals) + {user};
    hide Elements;
  }

  lemma TallyRejection(w: Wallet, p: Proposal, yes: set<nat>, no: set<nat>, user: nat)
    requires Tallied(w, p, yes, no) && user in w.signers && user !in no
    ensures Tallied(w, Reject(w, p, user).0, yes, no + {user})
  {
    assert user in p.rejections ==> user in Elements(p.rejections);
    assert Elements(p.rejections + [user]) == Elements(p.rejections) + {user};
    hide Elements;
  }

  lemma TallyVote(w: Wallet, p: Proposal, yes: set<nat>, no: set<nat>, v: Vote)
    requires Tallied(w, p, yes, no) && v.user in w.signers && v.user !in yes && v.user !in no
    requires v.approve ==> NotLater(v.at, p.expiresAt)
    ensures Tallied(w, Step(w, p, Cast(v)), if v.approve then yes + {v.user} else yes, if v.approve then no else no + {v.user})
  {
    hide Tallied, Approve, Reject;
    if v.approve {
      TallyApproval(w, p, yes, no, v.user, v.at);
    } else {
      TallyRejection(w, p, yes, no, v.user);
    }
  }

  lemma {:induction false} ExpiryStays(w: Wallet, p: Proposal, calls: seq<Call>)
    ensures After(w, p, calls).expiresAt == p.expiresAt
  {
    if calls != [] {
      ExpiryStays(w, p, calls[..|calls| - 1]);
    }
  }

  lemma {:induction false} Tally(w: Wallet, expiry: Option<int>, votes: seq<Vote>)
    requires WalletOk(w) && SignersVoteOnce(w, votes) && InTime(expiry, votes)
    ensures Tallied(w, After(w, NewProposal(expiry), Casts(votes)), Choosing(votes, true), Choosing(votes, false))
    ensures |Choosing(votes, true)| + |Choosing(votes, false)| == |votes|
  {
    hide Tallied, SignersVoteOnce, Choosing, Step, Cast, Casts, InTime;
    if votes == [] {
      TallyOfNone(w, expiry);
    } else {
      var front, last := votes[..|votes| - 1], votes[|votes| - 1];
      VotesSnoc(w, expiry, votes);
      Tally(w, expiry, front);
      var p := After(w, NewProposal(expiry), Casts(front));
      ExpiryStays(w, NewProposal(expiry), Casts(front));
      TallyVote(w, p, Choosing(front, true), Choosing(front, false), last);
      assert Casts(votes)[..|votes| - 1] == Casts(front);
    }
  }

  lemma TallyOfNone(w: Wallet, expiry: Option<int>)
    requires WalletOk(w)
    ensures Tallied(w, After(w, NewProposal(expiry), Casts([])), Choosing([], true), Choosing([], false))
    ensures |Choosing([], true)| + |Choosing([], false)| == 0
  {
    assert Choosing([], true) == {} && Choosing([], false) == {};
    assert Elements<nat>([]) == {};
  }

  /**
   * With pairwise distinct signers who each vote once, in any order, at any times with no approval after the expiry, the
   * proposal ends approved if and only if at least `threshold` of them approve, and rejected otherwise; it is never left
   * undecided.
   */
  lemma FullVoteDecides(w: Wallet, expiry: Option<int>, votes: seq<Vote>)
    requires WalletOk(w) && Distinct(w.signers) && FullVote(w, votes) && InTime(expiry, votes)
    ensures Outcome(w, expiry, votes) == if |Choosing(votes, true)| >= w.threshold then Approved else Rejected
  {
    Tally(w, expiry, votes);
    DistinctSize(Voters(votes));
    DistinctSize(w.signers);
  }

  /** No matter how its signers vote, a proposal of this wallet is decided once all have, if approvals come in time. */
  ghost predicate AlwaysDecided(w: Wallet, expiry: Option<int>) {
    forall votes: seq<Vote> :: FullVote(w, votes) && InTime(expiry, votes) ==> Outcome(w, expiry, votes) in {Approved, Rejected}
  }

  /** Whatever the expiry, that holds exactly when no signer is listed twice. */
  lemma AlwaysDecidedIff(w: Wallet, expiry: Option<int>)
    requires WalletOk(w)
    ensures AlwaysDecided(w, expiry) <==> Distinct(w.signers)
  {
    if Distinct(w.signers) {
      forall votes: seq<Vote> | FullVote(w, votes) && InTime(expiry, votes)
        ensures Outcome(w, expiry, votes) in {Approved, Rejected}
      {
        FullVoteDecides(w, expiry, votes);
      }
    } else {
      DistinctSize(w.signers);
      var users := Listing(Elements(w.signers));
      var yes := if |users| < w.threshold then |users| else w.threshold - 1;
      var votes := SplitVote(w, users, yes, expiry);
      Tally(w, expiry, votes);
      assert FullVote(w, votes) && Outcome(w, expiry, votes) == Pending;
    }
  }

  // ----- Votes and the expiry -----

  /**
   * After any calls whatever, an approval later than the expiry adds no vote: it finds the proposal pending and leaves it
   * expired, or finds it decided and leaves it so.
   */
  lemma LateApproval(w: Wallet, p: Proposal, calls: seq<Call>, user: nat, now: int)
    requires p.expiresAt.Some? && now > p.expiresAt.value
    ensures var before := After(w, p, calls);
      var (after, answer) := Approve(w, before, user, now);
      && after.approvals == before.approvals && after.rejections == before.rejections
      && after.status == (if before.status == Pending then Expired else before.status)
      && answer == Err(if before.status == Pending then ProposalExpired else ProposalNotPending)
  {
    ExpiryStays(w, p, calls);
  }

  /** One that is not later has the answer and the votes of the same call on a proposal that never expires. */
  lemma TimelyApproval(w: Wallet, p: Proposal, user: nat, now: int)
    requires NotLater(now, p.expiresAt)
    ensures var (q, answer) := Approve(w, p, user, now);
      var (q0, answer0) := Approve(w, p.(expiresAt := None), user, now);
      answer == answer0 && q == q0.(expiresAt := p.expiresAt)
  {
  }

  /** After any calls whatever, every vote on record is one that its user cast, and every approval was cast in time. */
  lemma {:induction false} VotesWereCast(w: Wallet, p: Proposal, calls: seq<Call>)
    requires Fresh(p)
    ensures forall u :: u in After(w, p, calls).approvals ==>
      exists i :: 0 <= i < |calls| && calls[i].CallApprove? && calls[i].user == u && NotLater(calls[i].now, p.expiresAt)
    ensures forall u :: u in After(w, p, calls).rejections ==> CallReject(u) in calls
  {
    if calls != [] {
      var front, last := calls[..|calls| - 1], calls[|calls| - 1];
      VotesWereCast(w, p, front);
      ExpiryStays(w, p, front);
      forall u | u in After(w, p, calls).approvals
        ensures exists i :: 0 <= i < |calls| && calls[i].CallApprove? && calls[i].user == u && NotLater(calls[i].now, p.expiresAt)
      {
        if u in After(w, p, front).approvals {
          var i :| 0 <= i < |front| && front[i].CallApprove? && front[i].user == u && NotLater(front[i].now, p.expiresAt);
          assert calls[i] == front[i];
        } else {
          assert last.CallApprove?;
        }
      }
    }
  }

  /** The first `yes` users approve, the others reject. */
  lemma SplitVote(w: Wallet, users: seq<nat>, yes: nat, expiry: Option<int>) returns (votes: seq<Vote>)
    requires Distinct(users) && Elements(users) <= Elements(w.signers) && yes <= |users|
    ensures |votes| == |users| && SignersVoteOnce(w, votes) && Voters(votes) == users && InTime(expiry, votes)
    ensures |Choosing(votes, true)| == yes && |Choosing(votes, false)| == |users| - yes
  {
    var at := if expiry.Some? then expiry.value else 0;
    votes := seq(|users|, i requires 0 <= i < |users| => Vote(users[i], i < yes, at));
    assert Voters(votes) == users;
    forall u ensures u in Choosing(votes, true) <==> u in Elements(users[..yes]) {
      if u in Elements(users[..yes]) {
        var i :| 0 <= i < yes && users[i] == u;
        assert votes[i] in votes;
      }
    }
    forall u ensures u in Choosing(votes, false) <==> u in Elements(users[yes..]) {
      if u in Elements(users[yes..]) {
        var i :| 0 <= i < |users| - yes && users[yes..][i] == u;
        assert votes[yes + i] in votes;
      }
    }
    DistinctSize(users[..yes]);
    DistinctSize(users[yes..]);
    assert Choosing(votes, true) == Elements(users[..yes]);
    assert Choosing(votes, false) == Elements(users[yes..]);
  }

  /** Some calls get a new proposal of this wallet approved. */
  ghost predicate CanBeApproved(w: Wallet, expiry: Option<int>) {
    exists calls: seq<Call> :: After(w, NewProposal(expiry), calls).status == Approved
  }

  /** That is possible exactly when there are as many different signers as the threshold asks for. */
  lemma CanBeApprovedIff(w: Wallet, expiry: Option<int>)
    requires WalletOk(w)
    ensures CanBeApproved(w, expiry) <==> |Elements(w.signers)| >= w.threshold
  {
    var p := NewProposal(expiry);
    if CanBeApproved(w, expiry) {
      var calls: seq<Call> :| After(w, p, calls).status == Approved;
      ReachableInv(w, p, calls);
      var approvals := After(w, p, calls).approvals;
      DistinctSize(approvals);
      SubsetSize(Elements(approvals), Elements(w.signers));
    }
    if |Elements(w.signers)| >= w.threshold {
      var users := Listing(Elements(w.signers));
      var votes := SplitVote(w, users, |users|, expiry);
      Tally(w, expiry, votes);
      DistinctSize(w.signers);
      assert After(w, p, Casts(votes)).status == Approved;
    }
  }

  // ----- The manager -----

  class Manager {
    var wallets: map<nat, Wallet>
    var proposals: map<nat, Proposal>
    var nextWallet: nat
    var nextProposal: nat

    ghost predicate Valid()
      reads this
    {
      && (forall id :: id in wallets ==> id < nextWallet && WalletOk(wallets[id]))
      && (forall i, j :: i in wallets && j in wallets && i != j ==> wallets[i].address != wallets[j].address)
      && (forall id :: id in proposals ==> id < nextProposal && proposals[id].wallet in wallets)
      && (forall id :: id in proposals ==> ProposalInv(wallets[proposals[id].wallet], proposals[id]))
    }

    constructor ()
      ensures Valid() && wallets == map[] && proposals == map[]
    {
      wallets, proposals, nextWallet, nextProposal := map[], map[], 0, 0;
    }

    method CreateWallet(address: string, threshold: int, signers: seq<nat>) returns (r: Result<nat, Error>)
      requires Valid()
      modifies this`wallets, this`nextWallet
      ensures Valid()
      ensures r.Ok? <==> 1 <= threshold <= |signers| && forall i :: i in old(wallets) ==> old(wallets)[i].address != address
      ensures r.Err? ==> wallets == old(wallets) && (r.error == InvalidThreshold <==> !(1 <= threshold <= |signers|))
      ensures r.Ok? ==> r.value !in old(wallets) && wallets == old(wallets)[r.value := Wallet(address, threshold, signers)]
    {
      if threshold < 1 || threshold > |signers| {
        return Err(InvalidThreshold);
      }
      if exists i :: i in wallets && wallets[i].address == address {
        return Err(WalletExists);
      }
      var id := nextWallet;
      nextWallet := nextWallet + 1;
      wallets := wallets[id := Wallet(address, threshold, signers)];
      return Ok(id);
    }

    static method IsSigner(w: Wallet, user: nat) returns (found: bool)
      ensures found == (user in w.signers)
    {
      for i := 0 to |w.signers|
        invariant user !in w.signers[..i]
      {
        if w.signers[i] == user {
          return true;
        }
      }
      return false;
    }

    method CreateProposal(wallet: nat, proposer: nat, expiresIn: Option<int>, now: int) returns (r: Result<nat, Error>)
      requires Valid()
      modifies this`proposals, this`nextProposal
      ensures Valid()
      ensures wallet !in wallets ==> r == Err(WalletNotFound)
      ensures wallet in wallets ==> if proposer in wallets[wallet].signers then r.Ok? else r == Err(NotASigner)
      ensures r.Err? ==> proposals == old(proposals)
      ensures r.Ok? ==> r.value !in old(proposals) && proposals == old(proposals)[r.value :=
        Proposal(wallet, [], [], Pending, if expiresIn.Some? then Some(now + expiresIn.value) else None)]
    {
      if wallet !in wallets {
        return Err(WalletNotFound);
      }
      var signs := IsSigner(wallets[wallet], proposer);
      if !signs {
        return Err(NotASigner);
      }
      var expiresAt := None;
      if expiresIn.Some? {
        expiresAt := Some(now + expiresIn.value);
      }
      var id := nextProposal;
      nextProposal := nextProposal + 1;
      proposals := proposals[id := Proposal(wallet, [], [], Pending, expiresAt)];
      return Ok(id);
    }

    static method HasVoted(votes: seq<nat>, user: nat) returns (found: bool)
      ensures found == (user in votes)
    {
      for i := 0 to |votes|
        invariant user !in votes[..i]
      {
        if votes[i] == user {
          return true;
        }
      }
      return false;
    }

    /** Stores the row that a call has produced. */
    method Store(id: nat, p: Proposal, ghost c: Call)
      requires Valid() && id in proposals && p == Step(wallets[proposals[id].wallet], proposals[id], c)
      modifies this`proposals
      ensures Valid() && proposals == old(proposals)[id := p]
    {
      CallKeepsInv(wallets[proposals[id].wallet], proposals[id], c);
      StatusMovesForward(wallets[proposals[id].wallet], proposals[id], c);
      hide ProposalInv, Step;
      proposals := proposals[id := p];
    }

    method ApproveProposal(id: nat, user: nat, now: int) returns (r: Result<(), Error>)
      requires Valid()
      modifies this`proposals
      ensures Valid()
      ensures id !in old(proposals) ==> r == Err(ProposalNotFound) && proposals == old(proposals)
      ensures id in old(proposals) ==>
        var p := old(proposals)[id];
        var (q, answer) := Approve(wallets[p.wallet], p, user, now);
        r == answer && proposals == old(proposals)[id := q]
      ensures id in old(proposals) && r.Ok? ==>
        proposals[id].approvals == old(proposals)[id].approvals + [user] && proposals[id].rejections == old(proposals)[id].rejections
      ensures id in old(proposals) ==>
        var p, w := old(proposals)[id], wallets[old(proposals)[id].wallet];
        var late := p.expiresAt.Some? && now > p.expiresAt.value;
        && (r == Err(ProposalNotPending) <==> p.status != Pending)
        && (r == Err(ProposalExpired) <==> p.status == Pending && late)
        && (r == Err(NotASigner) <==> p.status == Pending && !late && user !in w.signers)
        && (r == Err(AlreadyApproved) <==> p.status == Pending && !late && user in w.signers && user in p.approvals)
    {
      if id !in proposals {
        return Err(ProposalNotFound);
      }
      hide ProposalInv;
      var p := proposals[id];
      ghost var call := CallApprove(user, now);
      if p.status != Pending {
        return Err(ProposalNotPending);
      }
      if p.expiresAt.Some? && now > p.expiresAt.value {
        Store(id, p.(status := Expired), call);
        return Err(ProposalExpired);
      }
      var w := wallets[p.wallet];
      var signs := IsSigner(w, user);
      if !signs {
        return Err(NotASigner);
      }
      var voted := HasVoted(p.approvals, user);
      if voted {
        return Err(AlreadyApproved);
      }
      var q := p.(approvals := p.approvals + [user]);
      if |q.approvals| >= w.threshold {
        q := q.(status := Approved);
      }
      Store(id, q, call);
      return Ok(());
    }

    method RejectProposal(id: nat, user: nat) returns (r: Result<(), Error>)
      requires Valid()
      modifies this`proposals
      ensures Valid()
      ensures id !in old(proposals) ==> r == Err(ProposalNotFound) && proposals == old(proposals)
      ensures id in old(proposals) ==>
        var p := old(proposals)[id];
        var (q, answer) := Reject(wallets[p.wallet], p, user);
        r == answer && proposals == old(proposals)[id := q]
      ensures id in old(proposals) && r.Ok? ==>
        proposals[id].rejections == old(proposals)[id].rejections + [user] && proposals[id].approvals == old(proposals)[id].approvals
      ensures id in old(proposals) ==>
        var p, w := old(proposals)[id], wallets[old(proposals)[id].wallet];
        && (r == Err(ProposalNotPending) <==> p.status != Pending)
        && (r == Err(NotASigner) <==> p.status == Pending && user !in w.signers)
        && (r == Err(AlreadyRejected) <==> p.status == Pending && user in w.signers && user in p.rejections)
    {
      if id !in proposals {
        return Err(ProposalNotFound);
      }
      hide ProposalInv;
      var p := proposals[id];
      if p.status != Pending {
        return Err(ProposalNotPending);
      }
      var w := wallets[p.wallet];
      var signs := IsSigner(w, user);
      if !signs {
        return Err(NotASigner);
      }
      var voted := HasVoted(p.rejections, user);
      if voted {
        return Err(AlreadyRejected);
      }
      var q := p.(rejections := p.rejections + [user]);
      if |q.rejections| > |w.signers| - w.threshold {
        q := q.(status := Rejected);
      }
      Store(id, q, CallReject(user));
      return Ok(());
    }

    method ExecuteProposal(id: nat) returns (r: Result<(), Error>)
      requires Valid()
      modifies this`proposals
      ensures Valid()
      ensures id !in old(proposals) ==> r == Err(ProposalNotFound) && proposals == old(proposals)
      ensures id in old(proposals) ==>
        var p := old(proposals)[id];
        var (q, answer) := Execute(wallets[p.wallet], p);
        r == answer && proposals == old(proposals)[id := q]
      ensures id in old(proposals) ==>
        && (r.Ok? <==> old(proposals)[id].status == Approved)
        && (r == Err(InsufficientApprovals) <==> old(proposals)[id].status == Pending)
        && proposals[id] == if r.Ok? then old(proposals)[id].(status := Executed) else old(proposals)[id]
    {
      if id !in proposals {
        return Err(ProposalNotFound);
      }
      hide ProposalInv;
      var p := proposals[id];
      if p.status != Approved {
        if p.status == Pending && |p.approvals| < wallets[p.wallet].threshold {
          return Err(InsufficientApprovals);
        }
        return Err(ProposalNotPending);
      }
      Store(id, p.(status := Executed), CallExecute);
      return Ok(());
    }

    method ExpireProposals(now: int)
      requires Valid()
      modifies this`proposals
      ensures Valid()
      ensures proposals == map id | id in old(proposals) :: Expire(old(proposals)[id], now)
      ensures forall id :: id in old(proposals) ==>
        var p := old(proposals)[id];
        proposals[id] == if p.status == Pending && p.expiresAt.Some? && p.expiresAt.value < now then p.(status := Expired) else p
    {
      forall id | id in proposals
        ensures ProposalInv(wallets[proposals[id].wallet], Expire(proposals[id], now))
        ensures Expire(proposals[id], now).wallet == proposals[id].wallet
        ensures var p := proposals[id];
          Expire(p, now) == if p.status == Pending && p.expiresAt.Some? && p.expiresAt.value < now then p.(status := Expired) else p
      {
        CallKeepsInv(wallets[proposals[id].wallet], proposals[id], CallExpire(now));
      }
      hide ProposalInv, Expire;
      proposals := map id | id in proposals :: Expire(proposals[id], now);
    }
  }
}
