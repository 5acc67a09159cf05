/** Weighted quorums over the validator set of an epoch. */
module ValidatorVerifiers {
  import opened ConsensusTypes

  datatype ValidatorInfo = ValidatorInfo(address: Author, power: nat)

  datatype VotingPowerCheck =
    | Enough
    | TooLittleVotingPower(votingPower: nat)
    | UnknownAuthor

  datatype ValidatorVerifier = ValidatorVerifier(infos: seq<ValidatorInfo>, quorum: nat) {

    /** Addresses are unique and a quorum is reachable. */
    predicate Valid() {
      && (forall i, j :: 0 <= i < j < |infos| ==> infos[i].address != infos[j].address)
      && quorum <= Total()
    }

    function Authors(): set<Author> {
      set i | 0 <= i < |infos| :: infos[i].address
    }

    function Total(): nat { Power(Authors()) }

    function Power(s: set<Author>): nat { PowerOf(infos, s) }

    /** What a certificate needs: only known signers, and enough of them. */
    predicate IsQuorum(s: set<Author>) { s <= Authors() && Power(s) >= quorum }

    function Check(s: set<Author>): VotingPowerCheck {
      if !(s <= Authors()) then UnknownAuthor
      else if Power(s) < quorum then TooLittleVotingPower(Power(s))
      else Enough
    }
  }

  /** The voting power that the members of `s` hold in `infos`. */
  function PowerOf(infos: seq<ValidatorInfo>, s: set<Author>): nat {
    if infos == [] then 0
    else PowerOf(infos[1..], s) + if infos[0].address in s then infos[0].power else 0
  }

  /** The default quorum is the least number above two thirds of the total. */
  function WithDefaultQuorum(infos: seq<ValidatorInfo>): (v: ValidatorVerifier)
    ensures v.infos == infos
    ensures infos != [] ==> v.quorum > 0 && 3 * (v.quorum - 1) <= 2 * v.Total() < 3 * v.quorum
  {
    var total := ValidatorVerifier(infos, 0).Total();
    ValidatorVerifier(infos, if infos == [] then 0 else total * 2 / 3 + 1)
  }

  lemma {:induction false} PowerOfUnion(infos: seq<ValidatorInfo>, a: set<Author>, b: set<Author>)
    ensures PowerOf(infos, a) + PowerOf(infos, b) == PowerOf(infos, a + b) + PowerOf(infos, a * b)
  {
    if infos != [] { PowerOfUnion(infos[1..], a, b); }
  }

  lemma {:induction false} PowerOfMonotone(infos: seq<ValidatorInfo>, a: set<Author>, b: set<Author>)
    requires forall i :: 0 <= i < |infos| && infos[i].address in a ==> infos[i].address in b
    ensures PowerOf(infos, a) <= PowerOf(infos, b)
  {
    if infos != [] { PowerOfMonotone(infos[1..], a, b); }
  }

  lemma PowerMonotone(v: ValidatorVerifier, a: set<Author>, b: set<Author>)
    requires a <= b
    ensures v.Power(a) <= v.Power(b)
  {
    PowerOfMonotone(v.infos, a, b);
  }

  lemma PowerAtMostTotal(v: ValidatorVerifier, s: set<Author>)
    ensures v.Power(s) <= v.Total()
  {
    PowerOfMonotone(v.infos, s, v.Authors());
  }

  lemma {:induction false} PowerOfNone(infos: seq<ValidatorInfo>, s: set<Author>)
    requires forall i :: 0 <= i < |infos| ==> infos[i].address !in s
    ensures PowerOf(infos, s) == 0
  {
    if infos != [] { PowerOfNone(infos[1..], s); }
  }

  /** Disjoint groups of signers share the total power between them. */
  lemma DisjointPower(v: ValidatorVerifier, a: set<Author>, b: set<Author>)
    requires a !! b
    ensures v.Power(a) + v.Power(b) == v.Power(a + b) <= v.Total()
  {
    PowerOfUnion(v.infos, a, b);
    PowerOfNone(v.infos, a * b);
    PowerAtMostTotal(v, a + b);
  }

  /** Two quorums share a signer outside every set that is too weak to fill their overlap. */
  lemma QuorumIntersection(v: ValidatorVerifier, a: set<Author>, b: set<Author>, byzantine: set<Author>)
      returns (honest: Author)
    requires v.IsQuorum(a) && v.IsQuorum(b)
    requires v.Power(byzantine) + v.Total() < 2 * v.quorum
    ensures honest in a && honest in b && honest !in byzantine
  {
    PowerOfUnion(v.infos, a, b);
    PowerAtMostTotal(v, a + b);
    if a * b <= byzantine {
      PowerMonotone(v, a * b, byzantine);
      assert false;
    }
    honest :| honest in a * b && honest !in byzantine;
  }

  /** With the default quorum, tolerating as much power as a quorum can do without suffices
      for quorum intersection. */
  lemma DefaultQuorumTolerance(infos: seq<ValidatorInfo>, byzantine: set<Author>)
    requires infos != []
    requires var v := WithDefaultQuorum(infos);
             v.Power(byzantine) + v.quorum <= v.Total()
    ensures var v := WithDefaultQuorum(infos);
            v.Power(byzantine) + v.Total() < 2 * v.quorum
  {
  }

  /** Adds up the voting power author by author, in no particular order. */
  method CheckVotingPower(v: ValidatorVerifier, authors: set<Author>) returns (r: VotingPowerCheck)
    requires v.Valid()
    ensures r == v.Check(authors)
  {
    var rest, power := authors, 0;
    assert authors - rest == {};
    PowerOfNone(v.infos, {});
    while rest != {}
      invariant rest <= authors
      invariant authors - rest <= v.Authors()
      invariant power == v.Power(authors - rest)
      decreases rest
    {
      var author :| author in rest;
      if author !in v.Authors() {
        return UnknownAuthor;
      }
      var i := IndexOf(v, author);
      power := power + v.infos[i].power;
      PowerOfSingleton(v.infos, i);
      DisjointPower(v, authors - rest, {author});
      assert authors - (rest - {author}) == (authors - rest) + {author};
      rest := rest - {author};
    }
    assert authors - rest == authors;
    return if power < v.quorum then TooLittleVotingPower(power) else Enough;
  }

  method IndexOf(v: ValidatorVerifier, author: Author) returns (i: nat)
    requires author in v.Authors()
    ensures i < |v.infos| && v.infos[i].address == author
  {
    i := 0;
    while v.infos[i].address != author
      invariant i < |v.infos|
      invariant forall j :: 0 <= j < i ==> v.infos[j].address != author
      decreases |v.infos| - i
    {
      i := i + 1;
    }
  }

  lemma {:induction false} PowerOfSingleton(infos: seq<ValidatorInfo>, i: nat)
    requires i < |infos|
    requires forall i, j :: 0 <= i < j < |infos| ==> infos[i].address != infos[j].address
    ensures PowerOf(infos, {infos[i].address}) == infos[i].power
  {
    if i == 0 {
      PowerOfNone(infos[1..], {infos[0].address});
    } else {
      PowerOfSingleton(infos[1..], i - 1);
    }
  }
}
