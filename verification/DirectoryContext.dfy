/** The lookup tables and validation contexts a loaded directory provides. */
module DirectoryContext {
  import opened Wrappers
  import opened Directory
  import opened Protocol

  /** Files each key of a list under its ID; a later entry replaces an earlier one. */
  function AddKeys(table: map<string, OwnedKey>, owner: string, keys: seq<Key>): map<string, OwnedKey> {
    if keys == [] then table
    else
      var last := keys[|keys| - 1];
      AddKeys(table, owner, keys[..|keys| - 1])[last.kid := OwnedKey(owner, last)]
  }

  function KeyTable(agents: seq<Agent>, purpose: Purpose): map<string, OwnedKey> {
    if agents == [] then map[]
    else
      var last := agents[|agents| - 1];
      AddKeys(KeyTable(agents[..|agents| - 1], purpose), last.id, last.Keys(purpose))
  }

  lemma {:induction false} AddKeysMeaning(table: map<string, OwnedKey>, owner: string, keys: seq<Key>, kid: string)
    requires forall i, j :: 0 <= i < j < |keys| ==> keys[i].kid != keys[j].kid
    ensures (forall j :: 0 <= j < |keys| ==> keys[j].kid != kid) ==>
      (kid in AddKeys(table, owner, keys) <==> kid in table) && (kid in table ==> AddKeys(table, owner, keys)[kid] == table[kid])
    ensures forall j :: 0 <= j < |keys| && keys[j].kid == kid ==>
      kid in AddKeys(table, owner, keys) && AddKeys(table, owner, keys)[kid] == OwnedKey(owner, keys[j])
  {
    if keys != [] {
      AddKeysMeaning(table, owner, keys[..|keys| - 1], kid);
    }
  }

  lemma UniqueWithin(agents: seq<Agent>, i: nat, purpose: Purpose)
    requires i < |agents| && UniqueKids(agents)
    ensures forall j, j' :: 0 <= j < j' < |agents[i].Keys(purpose)| ==>
      agents[i].Keys(purpose)[j].kid != agents[i].Keys(purpose)[j'].kid
  {
    forall j, j' | 0 <= j < j' < |agents[i].Keys(purpose)|
      ensures agents[i].Keys(purpose)[j].kid != agents[i].Keys(purpose)[j'].kid
    {
      assert HasSlot(agents, i, purpose, j) && HasSlot(agents, i, purpose, j');
    }
  }

  /** With unique key IDs the table holds exactly the directory's keys, each under its owner. */
  lemma {:induction false} KeyTableMeaning(agents: seq<Agent>, purpose: Purpose, kid: string)
    requires UniqueKids(agents)
    ensures kid in KeyTable(agents, purpose) ==>
      exists i, j :: HasSlot(agents, i, purpose, j) && KeyAt(agents, i, purpose, j).kid == kid
        && KeyTable(agents, purpose)[kid] == OwnedKey(agents[i].id, KeyAt(agents, i, purpose, j))
    ensures forall i, j :: HasSlot(agents, i, purpose, j) && KeyAt(agents, i, purpose, j).kid == kid ==>
      kid in KeyTable(agents, purpose) && KeyTable(agents, purpose)[kid] == OwnedKey(agents[i].id, KeyAt(agents, i, purpose, j))
  {
    if agents != [] {
      var n := |agents| - 1;
      var front, last := agents[..n], agents[n];
      UniqueKidsPrefix(agents, n);
      KeyTableMeaning(front, purpose, kid);
      UniqueWithin(agents, n, purpose);
      AddKeysMeaning(KeyTable(front, purpose), last.id, last.Keys(purpose), kid);
      assert forall i, j :: HasSlot(front, i, purpose, j) ==>
          HasSlot(agents, i, purpose, j) && KeyAt(agents, i, purpose, j) == KeyAt(front, i, purpose, j);
      assert forall j :: 0 <= j < |last.Keys(purpose)| ==> HasSlot(agents, n, purpose, j);
      assert forall i, j :: HasSlot(agents, i, purpose, j) && i != n ==> HasSlot(front, i, purpose, j);
      if j :| 0 <= j < |last.Keys(purpose)| && last.Keys(purpose)[j].kid == kid {
        assert HasSlot(agents, n, purpose, j) && KeyAt(agents, n, purpose, j).kid == kid;
      } else if kid in KeyTable(front, purpose) {
        var i, j :| HasSlot(front, i, purpose, j) && KeyAt(front, i, purpose, j).kid == kid
          && KeyTable(front, purpose)[kid] == OwnedKey(front[i].id, KeyAt(front, i, purpose, j));
        assert HasSlot(agents, i, purpose, j) && KeyAt(agents, i, purpose, j).kid == kid;
      }
    }
  }

  /** Audiences filed under kind, ID and epoch. */
  function AudienceTable(audiences: seq<Audience>): map<AudienceKey, Audience> {
    if audiences == [] then map[]
    else AudienceTable(audiences[..|audiences| - 1])[audiences[|audiences| - 1].key := audiences[|audiences| - 1]]
  }

  lemma {:induction false} AudienceTableMeaning(audiences: seq<Audience>)
    requires UniqueAudiences(audiences)
    ensures forall a :: a in audiences ==> a.key in AudienceTable(audiences) && AudienceTable(audiences)[a.key] == a
    ensures forall k :: k in AudienceTable(audiences) ==> AudienceTable(audiences)[k] in audiences && AudienceTable(audiences)[k].key == k
  {
    if audiences != [] {
      var front, last := audiences[..|audiences| - 1], audiences[|audiences| - 1];
      AudienceTableMeaning(front);
      assert forall a :: a in audiences <==> a in front || a == last;
    }
  }

  predicate Authorizes(a: Audience, sender: Option<string>) {
    a.status.ActiveAudience? && sender.Some? && sender.value in a.allowedSenders
  }

  /** Retired audiences stay readable for their recipients. */
  predicate ReadableBy(a: Audience, receiver: Option<string>) {
    !a.status.RevokedAudience? && receiver.Some? && receiver.value in a.Recipients()
  }

  function AuthorizedKeys(table: map<AudienceKey, Audience>, sender: Option<string>): set<AudienceKey> {
    set k | k in table && Authorizes(table[k], sender)
  }

  function ReadableKeys(table: map<AudienceKey, Audience>, receiver: Option<string>): set<AudienceKey> {
    set k | k in table && ReadableBy(table[k], receiver)
  }

  function ShownMembers(table: map<AudienceKey, Audience>, receiver: Option<string>): map<AudienceKey, seq<string>> {
    map k | k in table && (table[k].status.ActiveAudience? || ReadableBy(table[k], receiver)) :: table[k].Recipients()
  }

  function ContextOf(s: Snapshot, sender: Option<string>, receiver: Option<string>, now: int, seen: set<(string, Uuid)>): Context {
    Context(
      now,
      receiver,
      seen,
      AuthorizedKeys(AudienceTable(s.audiences), sender),
      ReadableKeys(AudienceTable(s.audiences), receiver),
      ShownMembers(AudienceTable(s.audiences), receiver),
      KeyTable(s.agents, Signing),
      KeyTable(s.agents, Encryption))
  }

  lemma TableGrows(table: map<AudienceKey, Audience>, a: Audience, sender: Option<string>, receiver: Option<string>)
    requires a.key !in table
    ensures AuthorizedKeys(table[a.key := a], sender) == AuthorizedKeys(table, sender) + if Authorizes(a, sender) then {a.key} else {}
    ensures ReadableKeys(table[a.key := a], receiver) == ReadableKeys(table, receiver) + if ReadableBy(a, receiver) then {a.key} else {}
    ensures ShownMembers(table[a.key := a], receiver) ==
      if a.status.ActiveAudience? || ReadableBy(a, receiver) then ShownMembers(table, receiver)[a.key := a.Recipients()]
      else ShownMembers(table, receiver)
  {
    var grown := table[a.key := a];
    assert forall k :: k in grown <==> k in table || k == a.key;
    assert forall k :: k in table ==> grown[k] == table[k];
  }

  /** Fills the context one audience at a time. */
  method BuildContext(s: Snapshot, sender: Option<string>, receiver: Option<string>, now: int, seen: set<(string, Uuid)>)
    returns (c: Context)
    requires UniqueAudiences(s.audiences)
    ensures c == ContextOf(s, sender, receiver, now, seen)
  {
    hide AuthorizedKeys, ReadableKeys, ShownMembers;
    var authorized, readable, members := {}, {}, map[];
    ghost var table: map<AudienceKey, Audience> := map[];
    EmptyTable(sender, receiver);
    for n := 0 to |s.audiences|
      invariant table == AudienceTable(s.audiences[..n])
      invariant authorized == AuthorizedKeys(table, sender)
      invariant readable == ReadableKeys(table, receiver)
      invariant members == ShownMembers(table, receiver)
    {
      var a := s.audiences[n];
      assert s.audiences[..n + 1][..n] == s.audiences[..n];
      AudienceTableMeaning(s.audiences[..n]);
      TableGrows(table, a, sender, receiver);
      table := table[a.key := a];
      if !a.status.RevokedAudience? {
        if a.status.ActiveAudience? {
          members := members[a.key := a.Recipients()];
          if sender.Some? && sender.value in a.allowedSenders {
            authorized := authorized + {a.key};
          }
        }
        if receiver.Some? && receiver.value in a.Recipients() {
          members, readable := members[a.key := a.Recipients()], readable + {a.key};
        }
      }
    }
    assert s.audiences[..|s.audiences|] == s.audiences;
    c := Context(now, receiver, seen, authorized, readable, members, KeyTable(s.agents, Signing), KeyTable(s.agents, Encryption));
  }

  lemma EmptyTable(sender: Option<string>, receiver: Option<string>)
    ensures AuthorizedKeys(map[], sender) == {} && ReadableKeys(map[], receiver) == {} && ShownMembers(map[], receiver) == map[]
  {
  }
}
