/** The answer to `who`: one roster line per registered name.  Go visits a
    map in no fixed order, so the answer is stated as a multiset of lines. */
module Listing {
  import opened Wire

  /** What a `who` line shows of a registered user. */
  datatype Entry = Entry(addr: string, name: string)

  function EntryLine(e: Entry): string
  {
    RosterLine(e.addr, e.name)
  }

  /** Some registered name: the order of a Go map visit is not specified. */
  ghost function AnyKey(roster: map<string, Entry>): (k: string)
    requires |roster| != 0
    ensures k in roster
  {
    var k :| k in roster; k
  }

  /** The lines of a `who` answer for `roster`, whatever order the keys are
      visited in: exactly one line per registered name. */
  ghost function Listed(roster: map<string, Entry>): (lines: multiset<string>)
    ensures |lines| == |roster|
    decreases |roster|
  {
    if |roster| == 0 then multiset{}
    else
      var k := AnyKey(roster);
      assert |roster - {k}| == |roster| - 1 by { assert (roster - {k}).Keys == roster.Keys - {k}; }
      multiset{EntryLine(roster[k])} + Listed(roster - {k})
  }

  /** The entries of `roster` whose names are in `names`. */
  function Only(roster: map<string, Entry>, names: set<string>): map<string, Entry>
  {
    map k | k in roster && k in names :: roster[k]
  }

  /** Dropping two names in either order leaves the same roster. */
  lemma DropBoth(roster: map<string, Entry>, j: string, k: string)
    ensures (roster - {j}) - {k} == (roster - {k}) - {j}
  {
    assert ((roster - {j}) - {k}).Keys == roster.Keys - {j, k} == ((roster - {k}) - {j}).Keys;
  }

  /** Any key may be visited first: the answer does not depend on the order. */
  lemma {:induction false} ListedPick(roster: map<string, Entry>, k: string)
    requires k in roster
    ensures Listed(roster) == multiset{EntryLine(roster[k])} + Listed(roster - {k})
    decreases |roster|
  {
    var j := AnyKey(roster);
    if j != k {
      var withoutJ, withoutK := roster - {j}, roster - {k};
      assert withoutJ.Keys == roster.Keys - {j};
      assert withoutK.Keys == roster.Keys - {k};
      assert Listed(roster) == multiset{EntryLine(roster[j])} + Listed(withoutJ);
      ListedPick(withoutJ, k);
      ListedPick(withoutK, j);
      DropBoth(roster, j, k);
      assert withoutJ[k] == roster[k] && withoutK[j] == roster[j];
    }
  }

  /** Visiting one more name of `roster` lists exactly that name's line. */
  lemma ListedStep(roster: map<string, Entry>, pending: set<string>, k: string)
    requires k in pending && pending <= roster.Keys
    ensures Listed(Only(roster, pending)) ==
      multiset{EntryLine(roster[k])} + Listed(Only(roster, pending - {k}))
  {
    ListedPick(Only(roster, pending), k);
    assert Only(roster, pending) - {k} == Only(roster, pending - {k});
  }

  /** Every registered user is listed. */
  lemma ListedHas(roster: map<string, Entry>, k: string)
    requires k in roster
    ensures EntryLine(roster[k]) in Listed(roster)
  {
    ListedPick(roster, k);
  }

  /** Nothing but registered users is listed. */
  lemma {:induction false} ListedOnly(roster: map<string, Entry>, line: string)
    requires line in Listed(roster)
    ensures exists k :: k in roster && EntryLine(roster[k]) == line
    decreases |roster|
  {
    var k :| k in roster;
    ListedPick(roster, k);
    if line != EntryLine(roster[k]) {
      assert (roster - {k}).Keys == roster.Keys - {k};
      ListedOnly(roster - {k}, line);
    }
  }

  /** `done` holds the lines of the names of `roster` not in `pending`. */
  ghost predicate Accounted(roster: map<string, Entry>, pending: set<string>, done: seq<string>)
  {
    multiset(done) + Listed(Only(roster, pending)) == Listed(roster)
  }

  /** Before the visit nothing is written and every name is pending. */
  lemma AccountedStart(roster: map<string, Entry>)
    ensures Accounted(roster, roster.Keys, [])
  {
    assert Only(roster, roster.Keys) == roster;
  }

  /** Writing the line of one pending name keeps the account. */
  lemma AccountedStep(roster: map<string, Entry>, pending: set<string>, k: string, done: seq<string>)
    requires k in pending && pending <= roster.Keys
    requires Accounted(roster, pending, done)
    ensures Accounted(roster, pending - {k}, done + [EntryLine(roster[k])])
  {
    ListedStep(roster, pending, k);
    assert multiset(done + [EntryLine(roster[k])]) == multiset(done) + multiset{EntryLine(roster[k])};
  }

  /** Once nothing is pending, exactly the listing has been written. */
  lemma AccountedEnd(roster: map<string, Entry>, done: seq<string>)
    requires Accounted(roster, {}, done)
    ensures multiset(done) == Listed(roster)
  {
    assert Only(roster, {}) == map[];
  }
}
