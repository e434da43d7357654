/** The secondary indexes over accounts: who is a member of whose authorities, who referred whom, and the list of escrow
    agents by name. Each is kept up to date by hooks that see one account at a time. */
module AccountIndex {
  import opened Common

  type Key = nat

  /** An address is the hash of a key, or of something else. */
  datatype Address = OfKey(key: Key) | Plain(number: nat)

  datatype Authority = Authority(keys: set<Key>, addresses: set<Address>, accounts: set<AccountId>)

  datatype Account = Account(
    name: string,
    owner: Authority,
    active: Authority,
    memoKey: Key,
    referrer: AccountId,
    isEscrow: bool)

  function KeyMembers(a: Account): set<Key> { a.owner.keys + a.active.keys + {a.memoKey} }

  function AddressMembers(a: Account): set<Address> { a.owner.addresses + a.active.addresses + {OfKey(a.memoKey)} }

  function AccountMembers(a: Account): set<AccountId> { a.owner.accounts + a.active.accounts }

  // --------------------------------------------------------------------------------------------------------------
  // Reverse lookups.

  function Lookup<K>(m: map<K, set<AccountId>>, k: K): set<AccountId> {
    if k in m then m[k] else {}
  }

  /** The lookup of each key is exactly the accounts that have it. */
  ghost predicate Indexes<K(!new)>(m: map<K, set<AccountId>>, having: map<AccountId, set<K>>) {
    forall k: K, id: AccountId {:trigger id in Lookup(m, k)} :: id in Lookup(m, k) <==> id in having && k in having[id]
  }

  /** Adds `id` under every item. */
  method AddTo<K(!new)>(m: map<K, set<AccountId>>, items: set<K>, id: AccountId) returns (r: map<K, set<AccountId>>)
    ensures forall k: K {:trigger Lookup(r, k)} ::
              Lookup(r, k) == if k in items then Lookup(m, k) + {id} else Lookup(m, k)
  {
    r := m;
    var rest := items;
    while rest != {}
      invariant rest <= items
      invariant forall k: K {:trigger Lookup(r, k)} ::
                  Lookup(r, k) == if k in items - rest then Lookup(m, k) + {id} else Lookup(m, k)
      decreases rest
    {
      var k :| k in rest;
      ghost var r0 := r;
      r := r[k := Lookup(r, k) + {id}];
      forall x: K ensures Lookup(r, x) == if x in items - (rest - {k}) then Lookup(m, x) + {id} else Lookup(m, x) {
        assert Lookup(r0, x) == if x in items - rest then Lookup(m, x) + {id} else Lookup(m, x);
      }
      rest := rest - {k};
    }
  }

  /** Erases `id` under every item; entries that become empty stay. */
  method EraseFrom<K(!new)>(m: map<K, set<AccountId>>, items: set<K>, id: AccountId) returns (r: map<K, set<AccountId>>)
    ensures forall k: K {:trigger Lookup(r, k)} ::
              Lookup(r, k) == if k in items then Lookup(m, k) - {id} else Lookup(m, k)
  {
    r := m;
    var rest := items;
    while rest != {}
      invariant rest <= items
      invariant forall k: K {:trigger Lookup(r, k)} ::
                  Lookup(r, k) == if k in items - rest then Lookup(m, k) - {id} else Lookup(m, k)
      decreases rest
    {
      var k :| k in rest;
      ghost var r0 := r;
      r := r[k := Lookup(r, k) - {id}];
      forall x: K ensures Lookup(r, x) == if x in items - (rest - {k}) then Lookup(m, x) - {id} else Lookup(m, x) {
        assert Lookup(r0, x) == if x in items - rest then Lookup(m, x) - {id} else Lookup(m, x);
      }
      rest := rest - {k};
    }
  }

  /** object_modified for one kind of member: only what was lost is erased and only what is new is added. */
  method ChangeMembers<K(!new)>(m: map<K, set<AccountId>>, before: set<K>, after: set<K>, id: AccountId,
                                ghost having: map<AccountId, set<K>>)
    returns (r: map<K, set<AccountId>>)
    requires Indexes(m, having) && before == if id in having then having[id] else {}
    ensures Indexes(r, having[id := after])
  {
    var m1 := EraseFrom(m, before - after, id);
    r := AddTo(m1, after - before, id);
    forall k: K, j: AccountId ensures j in Lookup(r, k) <==> j in having[id := after] && k in having[id := after][j] {
      assert j in Lookup(m, k) <==> j in having && k in having[j];
      assert Lookup(m1, k) == if k in before - after then Lookup(m, k) - {id} else Lookup(m, k);
    }
  }

  /** object_removed for one kind of member. */
  method DropMembers<K(!new)>(m: map<K, set<AccountId>>, items: set<K>, id: AccountId,
                              ghost having: map<AccountId, set<K>>)
    returns (r: map<K, set<AccountId>>)
    requires Indexes(m, having) && id in having && items == having[id]
    ensures Indexes(r, having - {id})
  {
    r := EraseFrom(m, items, id);
    forall k: K, j: AccountId ensures j in Lookup(r, k) <==> j in having - {id} && k in (having - {id})[j] {
      assert j in Lookup(m, k) <==> j in having && k in having[j];
    }
  }

  /** account_referrer_index::object_inserted */
  method AddReferral(m: map<AccountId, set<AccountId>>, ghost having: map<AccountId, set<AccountId>>, id: AccountId,
                     referrer: AccountId)
    returns (r: map<AccountId, set<AccountId>>)
    requires Indexes(m, having) && NoEmptySets(m) && id !in having
    ensures Indexes(r, having[id := {referrer}]) && NoEmptySets(r)
  {
    r := m[referrer := Lookup(m, referrer) + {id}];
    forall k: AccountId, j: AccountId
      ensures j in Lookup(r, k) <==> j in having[id := {referrer}] && k in having[id := {referrer}][j]
    {
      assert j in Lookup(m, k) <==> j in having && k in having[j];
    }
  }

  /** account_referrer_index::object_removed: an entry that becomes empty is erased. */
  method EraseReferral(m: map<AccountId, set<AccountId>>, ghost having: map<AccountId, set<AccountId>>, id: AccountId,
                       referrer: AccountId)
    returns (r: map<AccountId, set<AccountId>>)
    requires Indexes(m, having) && NoEmptySets(m) && id in having && having[id] == {referrer}
    ensures Indexes(r, having - {id}) && NoEmptySets(r)
  {
    assert id in Lookup(m, referrer);
    var left := m[referrer] - {id};
    r := if left == {} then m - {referrer} else m[referrer := left];
    forall k: AccountId, j: AccountId ensures j in Lookup(r, k) <==> j in having - {id} && k in (having - {id})[j] {
      assert j in Lookup(m, k) <==> j in having && k in having[j];
      assert Lookup(r, k) == if k == referrer then left else Lookup(m, k);
    }
  }

  // --------------------------------------------------------------------------------------------------------------
  // The order of names.

  /** Lexicographic comparison of strings. */
  predicate NameLess(a: string, b: string) {
    if b == "" then false
    else if a == "" then true
    else a[0] < b[0] || (a[0] == b[0] && NameLess(a[1..], b[1..]))
  }

  lemma {:induction false} NameLessTotal(a: string, b: string)
    ensures NameLess(a, b) || NameLess(b, a) || a == b
    ensures !(NameLess(a, b) && NameLess(b, a)) && !NameLess(a, a)
  {
    if a != "" && b != "" {
      NameLessTotal(a[1..], b[1..]);
      NameLessTotal(a[1..], a[1..]);
      assert a == [a[0]] + a[1..] && b == [b[0]] + b[1..];
    } else if a != "" {
      NameLessTotal(a[1..], a[1..]);
    }
  }

  /** The lesser name ends first, or has the lesser letter where they first differ. */
  lemma {:induction false} FirstDifference(a: string, b: string) returns (i: nat)
    requires NameLess(a, b)
    ensures i <= |a| && i < |b| && a[..i] == b[..i] && (i == |a| || a[i] < b[i])
  {
    if a == "" || a[0] < b[0] {
      i := 0;
    } else {
      var j := FirstDifference(a[1..], b[1..]);
      i := j + 1;
      assert a[..i] == [a[0]] + a[1..][..j] && b[..i] == [b[0]] + b[1..][..j];
    }
  }

  lemma {:induction false} NameLessTrans(a: string, b: string, c: string)
    requires NameLess(a, b) && !NameLess(c, b)
    ensures NameLess(a, c)
  {
    if a != "" && c != "" && a[0] == b[0] == c[0] {
      NameLessTrans(a[1..], b[1..], c[1..]);
    }
  }

  predicate HasPrefix(name: string, prefix: string) {
    prefix <= name
  }

  /** The names with a prefix are the first ones that are not less than the prefix. */
  lemma {:induction false} PrefixIsRange(prefix: string, x: string, y: string)
    requires !NameLess(x, prefix) && !NameLess(y, x) && HasPrefix(y, prefix)
    ensures HasPrefix(x, prefix)
  {
    if prefix != "" {
      PrefixIsRange(prefix[1..], x[1..], y[1..]);
    }
  }

  lemma {:induction false} PrefixNotLess(prefix: string, x: string)
    requires HasPrefix(x, prefix)
    ensures !NameLess(x, prefix)
  {
    if prefix != "" {
      PrefixNotLess(prefix[1..], x[1..]);
    }
  }

  datatype Entry = Entry(id: AccountId, name: string)

  ghost predicate ByName(s: seq<Entry>) {
    forall i, j :: 0 <= i < j < |s| ==> NameLess(s[i].name, s[j].name)
  }

  /** `p` is where `name` is or would be. */
  ghost predicate Boundary(s: seq<Entry>, name: string, p: nat) {
    && p <= |s|
    && (forall i :: 0 <= i < p ==> NameLess(s[i].name, name))
    && (forall i :: p <= i < |s| ==> !NameLess(s[i].name, name))
  }

  /** std::lower_bound */
  method LowerBound(s: seq<Entry>, name: string) returns (p: nat)
    requires ByName(s)
    ensures Boundary(s, name, p)
  {
    var lo, hi := 0, |s|;
    while lo < hi
      invariant lo <= hi <= |s|
      invariant forall i :: 0 <= i < lo ==> NameLess(s[i].name, name)
      invariant forall i :: hi <= i < |s| ==> !NameLess(s[i].name, name)
    {
      var mid := (lo + hi) / 2;
      if NameLess(s[mid].name, name) {
        forall i | 0 <= i < mid ensures NameLess(s[i].name, name) {
          NameLessTotal(s[mid].name, name);
          NameLessTrans(s[i].name, s[mid].name, name);
        }
        lo := mid + 1;
      } else {
        forall i | mid < i < |s| ensures !NameLess(s[i].name, name) {
          NameLessTotal(s[i].name, name);
          if NameLess(s[i].name, name) { NameLessTrans(s[mid].name, s[i].name, name); }
        }
        hi := mid;
      }
    }
    p := lo;
  }

  // --------------------------------------------------------------------------------------------------------------
  // The list of escrow agents.

  ghost predicate UniqueNames(accounts: map<AccountId, Account>) {
    forall i, j :: i in accounts && j in accounts && accounts[i].name == accounts[j].name ==> i == j
  }

  /** The list has exactly the escrow accounts, sorted by name. */
  ghost predicate Lists(s: seq<Entry>, accounts: map<AccountId, Account>) {
    && ByName(s)
    && (forall i :: 0 <= i < |s| ==>
          s[i].id in accounts && accounts[s[i].id].isEscrow && accounts[s[i].id].name == s[i].name)
    && (forall id :: id in accounts && accounts[id].isEscrow ==> Entry(id, accounts[id].name) in s)
  }

  function InsertAt(s: seq<Entry>, p: nat, e: Entry): seq<Entry>
    requires p <= |s|
  {
    s[..p] + [e] + s[p..]
  }

  function EraseAt(s: seq<Entry>, p: nat): seq<Entry>
    requires p < |s|
  {
    s[..p] + s[p + 1..]
  }

  lemma InsertKeepsOrder(s: seq<Entry>, p: nat, e: Entry)
    requires ByName(s) && Boundary(s, e.name, p) && forall i :: 0 <= i < |s| ==> s[i].name != e.name
    ensures ByName(InsertAt(s, p, e))
    ensures forall x :: x in InsertAt(s, p, e) <==> x in s || x == e
  {
    hide NameLess;
    var t := InsertAt(s, p, e);
    forall i | p <= i < |s| ensures NameLess(e.name, s[i].name) {
      NameLessTotal(e.name, s[i].name);
    }
    assert forall i :: 0 <= i < |t| ==> t[i] == if i < p then s[i] else if i == p then e else s[i - 1];
    InsertedMembers(s, p, e);
  }

  lemma InsertedMembers(s: seq<Entry>, p: nat, e: Entry)
    requires p <= |s|
    ensures forall x :: x in InsertAt(s, p, e) <==> x in s || x == e
  {
    assert s == s[..p] + s[p..];
    forall x ensures x in InsertAt(s, p, e) <==> x in s || x == e {
      assert x in InsertAt(s, p, e) <==> x in s[..p] || x == e || x in s[p..];
    }
  }

  lemma NameIsNew(s: seq<Entry>, accounts: map<AccountId, Account>, id: AccountId, a: Account)
    requires Lists(s, accounts) && UniqueNames(accounts[id := a])
    ensures forall i :: 0 <= i < |s| && s[i].id != id ==> s[i].name != a.name
    ensures forall i, j :: 0 <= i < |s| && 0 <= j < |s| && s[i].id == s[j].id ==> i == j
  {
    var after := accounts[id := a];
    forall i | 0 <= i < |s| && s[i].id != id ensures s[i].name != a.name {
      assert s[i].id in after && id in after;
    }
    forall i, j | 0 <= i < |s| && 0 <= j < |s| && s[i].id == s[j].id ensures i == j {
      NameLessTotal(s[i].name, s[j].name);
    }
  }

  lemma InsertLists(s: seq<Entry>, accounts: map<AccountId, Account>, id: AccountId, a: Account, p: nat)
    requires Lists(s, accounts) && Boundary(s, a.name, p) && a.isEscrow
    requires UniqueNames(accounts[id := a]) && (id in accounts ==> !accounts[id].isEscrow)
    ensures Lists(InsertAt(s, p, Entry(id, a.name)), accounts[id := a])
  {
    NameIsNew(s, accounts, id, a);
    InsertKeepsOrder(s, p, Entry(id, a.name));
    var t := InsertAt(s, p, Entry(id, a.name));
    hide InsertAt;
    var after := accounts[id := a];
    forall i | 0 <= i < |t| ensures t[i].id in after && after[t[i].id].isEscrow && after[t[i].id].name == t[i].name {
      assert t[i] in t;
    }
  }

  /** An account is found at the boundary of its name if and only if it is listed. */
  lemma FoundAtBoundary(s: seq<Entry>, accounts: map<AccountId, Account>, id: AccountId, p: nat)
    requires Lists(s, accounts) && id in accounts && Boundary(s, accounts[id].name, p) && UniqueNames(accounts)
    ensures p < |s| && s[p].id == id <==> accounts[id].isEscrow
  {
    if accounts[id].isEscrow {
      var j :| 0 <= j < |s| && s[j] == Entry(id, accounts[id].name);
      NameLessTotal(s[j].name, s[j].name);
      assert p <= j;
      assert forall i :: 0 <= i < j ==> NameLess(s[i].name, s[j].name);
    }
  }

  lemma EraseKeepsOrder(s: seq<Entry>, p: nat)
    requires ByName(s) && p < |s|
    ensures ByName(EraseAt(s, p))
    ensures forall x :: x in EraseAt(s, p) <==> x in s && x != s[p]
  {
    hide NameLess;
    var t := EraseAt(s, p);
    assert forall i :: 0 <= i < |t| ==> t[i] == if i < p then s[i] else s[i + 1];
    forall x | x in s && x != s[p] ensures x in t {
      var j :| 0 <= j < |s| && s[j] == x;
      assert t[if j < p then j else j - 1] == x;
    }
    forall x | x in t ensures x != s[p] {
      var j :| 0 <= j < |t| && t[j] == x;
      NameLessTotal(x.name, s[p].name);
    }
  }

  lemma EraseLists(s: seq<Entry>, accounts: map<AccountId, Account>, after: map<AccountId, Account>, id: AccountId,
                   p: nat)
    requires Lists(s, accounts) && p < |s| && s[p].id == id
    requires forall x :: x != id ==> (x in after <==> x in accounts) && (x in after ==> after[x] == accounts[x])
    requires id in after ==> !after[id].isEscrow
    ensures Lists(EraseAt(s, p), after)
  {
    EraseKeepsOrder(s, p);
    var t := EraseAt(s, p);
    hide EraseAt, ByName;
    forall i | 0 <= i < |t| ensures t[i].id != id && t[i] in s {
      assert t[i] in t;
    }
  }

  /** Accounts that are not and were not escrow agents make no difference. */
  lemma NotConcerned(s: seq<Entry>, accounts: map<AccountId, Account>, after: map<AccountId, Account>, id: AccountId)
    requires Lists(s, accounts) && (id in accounts ==> !accounts[id].isEscrow) && (id in after ==> !after[id].isEscrow)
    requires forall x :: x != id ==> (x in after <==> x in accounts) && (x in after ==> after[x] == accounts[x])
    ensures Lists(s, after)
  {
  }

  /** A new name keeps the account's place in the list: it is not greater than the old one, and no other agent's name is
      between them. */
  ghost predicate KeepsPlace(accounts: map<AccountId, Account>, id: AccountId, name: string)
    requires id in accounts
  {
    && !NameLess(accounts[id].name, name)
    && forall x :: x in accounts && x != id && accounts[x].isEscrow && NameLess(accounts[x].name, accounts[id].name) ==>
                     NameLess(accounts[x].name, name)
  }

  lemma PlaceKept(s: seq<Entry>, accounts: map<AccountId, Account>, id: AccountId, name: string, p: nat)
    requires Lists(s, accounts) && id in accounts && accounts[id].isEscrow && Boundary(s, name, p)
             && UniqueNames(accounts)
    ensures p < |s| && s[p].id == id <==> KeepsPlace(accounts, id, name)
  {
    var j :| 0 <= j < |s| && s[j] == Entry(id, accounts[id].name);
    if KeepsPlace(accounts, id, name) {
      assert p <= j;
      if p < j {
        NameLessTotal(s[p].name, s[j].name);
        assert false;
      }
    } else if p < |s| && s[p].id == id {
      assert s[p].name == s[j].name;
      forall x | x in accounts && x != id && accounts[x].isEscrow && NameLess(accounts[x].name, accounts[id].name)
        ensures NameLess(accounts[x].name, name)
      {
        var i :| 0 <= i < |s| && s[i] == Entry(x, accounts[x].name);
        if i >= p {
          NameLessTotal(s[i].name, s[p].name);
        }
      }
      assert false;
    }
  }

  lemma RenameLists(s: seq<Entry>, accounts: map<AccountId, Account>, id: AccountId, a: Account, p: nat)
    requires Lists(s, accounts) && id in accounts && accounts[id].isEscrow && a.isEscrow
    requires Boundary(s, a.name, p) && p < |s| && s[p].id == id && UniqueNames(accounts[id := a])
    ensures Lists(s[p := Entry(id, a.name)], accounts[id := a])
  {
    var t, after := s[p := Entry(id, a.name)], accounts[id := a];
    NameIsNew(s, accounts, id, a);
    hide NameLess;
    forall i | p < i < |s| ensures NameLess(a.name, s[i].name) {
      NameLessTotal(a.name, s[i].name);
    }
    forall x | x in after && after[x].isEscrow ensures Entry(x, after[x].name) in t {
      if x == id {
        assert t[p] == Entry(id, a.name);
      } else {
        var j :| 0 <= j < |s| && s[j] == Entry(x, accounts[x].name);
        assert t[j] == s[j];
      }
    }
  }

  /** An old entry that was not found is still there, and does not belong. */
  lemma StaleEntry(s: seq<Entry>, accounts: map<AccountId, Account>, t: seq<Entry>, id: AccountId, a: Account)
    requires Lists(s, accounts) && id in accounts && accounts[id].isEscrow
    requires (forall x :: x in s ==> x in t) && (a.isEscrow ==> a.name != accounts[id].name)
    ensures !Lists(t, accounts[id := a])
  {
    var stale := Entry(id, accounts[id].name);
    assert stale in t;
    var i :| 0 <= i < |t| && t[i] == stale;
  }

  // --------------------------------------------------------------------------------------------------------------
  // The hooks.

  function KeysOf(accounts: map<AccountId, Account>): map<AccountId, set<Key>> {
    map id | id in accounts :: KeyMembers(accounts[id])
  }

  function AddressesOf(accounts: map<AccountId, Account>): map<AccountId, set<Address>> {
    map id | id in accounts :: AddressMembers(accounts[id])
  }

  function MembersOf(accounts: map<AccountId, Account>): map<AccountId, set<AccountId>> {
    map id | id in accounts :: AccountMembers(accounts[id])
  }

  function ReferrersOf(accounts: map<AccountId, Account>): map<AccountId, set<AccountId>> {
    map id | id in accounts :: {accounts[id].referrer}
  }

  ghost predicate NoEmptySets(m: map<AccountId, set<AccountId>>) {
    forall k :: k in m ==> m[k] != {}
  }

  lemma MembersOfOne(accounts: map<AccountId, Account>, id: AccountId)
    requires id in accounts
    ensures id in KeysOf(accounts) && KeysOf(accounts)[id] == KeyMembers(accounts[id])
    ensures id in AddressesOf(accounts) && AddressesOf(accounts)[id] == AddressMembers(accounts[id])
    ensures id in MembersOf(accounts) && MembersOf(accounts)[id] == AccountMembers(accounts[id])
    ensures id in ReferrersOf(accounts) && ReferrersOf(accounts)[id] == {accounts[id].referrer}
  {
  }

  lemma WithAccount(accounts: map<AccountId, Account>, id: AccountId, a: Account)
    ensures KeysOf(accounts[id := a]) == KeysOf(accounts)[id := KeyMembers(a)]
    ensures AddressesOf(accounts[id := a]) == AddressesOf(accounts)[id := AddressMembers(a)]
    ensures MembersOf(accounts[id := a]) == MembersOf(accounts)[id := AccountMembers(a)]
    ensures ReferrersOf(accounts[id := a]) == (ReferrersOf(accounts) - {id})[id := {a.referrer}]
    ensures KeysOf(accounts).Keys == AddressesOf(accounts).Keys == MembersOf(accounts).Keys == accounts.Keys
    ensures ReferrersOf(accounts).Keys == accounts.Keys
  {
    hide KeyMembers, AddressMembers, AccountMembers;
  }

  lemma WithoutAccount(accounts: map<AccountId, Account>, id: AccountId)
    ensures KeysOf(accounts - {id}) == KeysOf(accounts) - {id}
    ensures AddressesOf(accounts - {id}) == AddressesOf(accounts) - {id}
    ensures MembersOf(accounts - {id}) == MembersOf(accounts) - {id}
    ensures ReferrersOf(accounts - {id}) == ReferrersOf(accounts) - {id}
  {
    hide KeyMembers, AddressMembers, AccountMembers;
  }

  /** The undo database puts a removed object back without telling the secondary indexes. No lookup by key notices,
      since every account has a memo key; the list of escrow agents is right if and only if the account is not one of
      them. */
  lemma ReinsertionUnnoticed(accounts: map<AccountId, Account>, byKey: map<Key, set<AccountId>>, escrows: seq<Entry>,
                             id: AccountId, a: Account)
    requires Indexes(byKey, KeysOf(accounts)) && Lists(escrows, accounts) && id !in accounts
    ensures !Indexes(byKey, KeysOf(accounts[id := a]))
    ensures Lists(escrows, accounts[id := a]) <==> !a.isEscrow
  {
    assert id !in Lookup(byKey, a.memoKey);
    if a.isEscrow {
      assert Entry(id, a.name) !in escrows by {
        forall i | 0 <= i < |escrows| ensures escrows[i].id != id {}
      }
    }
  }

  lemma FewerNames(accounts: map<AccountId, Account>, id: AccountId)
    requires UniqueNames(accounts)
    ensures UniqueNames(accounts - {id})
  {
  }

  class Accounts {
    var accounts: map<AccountId, Account>
    var byKey: map<Key, set<AccountId>>
    var byAddress: map<Address, set<AccountId>>
    var byMember: map<AccountId, set<AccountId>>
    var referredBy: map<AccountId, set<AccountId>>
    var escrows: seq<Entry>

    /** Every index but the list of escrow agents agrees with the accounts. */
    ghost predicate LookupsValid()
      reads this`accounts, this`byKey, this`byAddress, this`byMember, this`referredBy
    {
      && Indexes(byKey, KeysOf(accounts))
      && Indexes(byAddress, AddressesOf(accounts))
      && Indexes(byMember, MembersOf(accounts))
      && Indexes(referredBy, ReferrersOf(accounts)) && NoEmptySets(referredBy)
    }

    ghost predicate Valid()
      reads this
    {
      LookupsValid() && Lists(escrows, accounts) && UniqueNames(accounts)
    }

    constructor ()
      ensures Valid() && accounts == map[]
    {
      accounts, byKey, byAddress, byMember, referredBy, escrows := map[], map[], map[], map[], map[], [];
    }

    /** What the lookups tell: the accounts with a key or an address in one of their authorities or as memo key, those
        that name an account in one of their authorities, and those that an account has referred. */
    lemma LookupsTell(id: AccountId)
      requires LookupsValid()
      ensures forall k: Key {:trigger Lookup(byKey, k)} ::
                id in Lookup(byKey, k) <==>
                id in accounts && (k in accounts[id].owner.keys || k in accounts[id].active.keys
                                   || k == accounts[id].memoKey)
      ensures forall x: Address {:trigger Lookup(byAddress, x)} ::
                id in Lookup(byAddress, x) <==>
                id in accounts && (x in accounts[id].owner.addresses || x in accounts[id].active.addresses
                                   || x == OfKey(accounts[id].memoKey))
      ensures forall m: AccountId {:trigger Lookup(byMember, m)} ::
                id in Lookup(byMember, m) <==>
                id in accounts && (m in accounts[id].owner.accounts || m in accounts[id].active.accounts)
      ensures forall m: AccountId {:trigger Lookup(referredBy, m)} ::
                id in Lookup(referredBy, m) <==> id in accounts && accounts[id].referrer == m
    {
      if id in accounts { MembersOfOne(accounts, id); }
    }

    /** The lookups when account `id` changes from `before` to `after`. */
    method ChangeLookups(id: AccountId, before: Account, after: Account)
      requires LookupsValid() && id in accounts && accounts[id] == before
      modifies this`accounts, this`byKey, this`byAddress, this`byMember, this`referredBy
      ensures LookupsValid() && accounts == old(accounts)[id := after]
    {
      hide Indexes, NoEmptySets, KeysOf, AddressesOf, MembersOf, ReferrersOf, KeyMembers, AddressMembers,
           AccountMembers;
      MembersOfOne(accounts, id);
      WithAccount(accounts, id, after);
      var keys := KeyMembers(before);
      var addresses := AddressMembers(before);
      var members := AccountMembers(before);
      referredBy := EraseReferral(referredBy, ReferrersOf(accounts), id, before.referrer);
      byKey := ChangeMembers(byKey, keys, KeyMembers(after), id, KeysOf(accounts));
      byAddress := ChangeMembers(byAddress, addresses, AddressMembers(after), id, AddressesOf(accounts));
      byMember := ChangeMembers(byMember, members, AccountMembers(after), id, MembersOf(accounts));
      referredBy := AddReferral(referredBy, ReferrersOf(accounts) - {id}, id, after.referrer);
      accounts := accounts[id := after];
    }

    /** A new account. */
    method Insert(id: AccountId, a: Account)
      requires Valid() && id !in accounts && UniqueNames(accounts[id := a])
      modifies this
      ensures Valid() && accounts == old(accounts)[id := a]
    {
      hide Indexes, NoEmptySets, Lists, UniqueNames, Boundary, KeysOf, AddressesOf, MembersOf, ReferrersOf, KeyMembers,
           AddressMembers, AccountMembers;
      WithAccount(accounts, id, a);
      assert ReferrersOf(accounts) - {id} == ReferrersOf(accounts);
      byKey := ChangeMembers(byKey, {}, KeyMembers(a), id, KeysOf(accounts));
      byAddress := ChangeMembers(byAddress, {}, AddressMembers(a), id, AddressesOf(accounts));
      byMember := ChangeMembers(byMember, {}, AccountMembers(a), id, MembersOf(accounts));
      referredBy := AddReferral(referredBy, ReferrersOf(accounts), id, a.referrer);
      if a.isEscrow {
        var p := LowerBoundOf(a.name);
        InsertLists(escrows, accounts, id, a, p);
        escrows := InsertAt(escrows, p, Entry(id, a.name));
      } else {
        NotConcerned(escrows, accounts, accounts[id := a], id);
      }
      accounts := accounts[id := a];
    }

    method LowerBoundOf(name: string) returns (p: nat)
      requires Lists(escrows, accounts)
      ensures p <= |escrows| && Boundary(escrows, name, p)
    {
      p := LowerBound(escrows, name);
    }

    /** An account is removed. */
    method Remove(id: AccountId)
      requires Valid() && id in accounts
      modifies this
      ensures Valid() && accounts == old(accounts) - {id}
    {
      hide Indexes, NoEmptySets, Lists, UniqueNames, Boundary, KeysOf, AddressesOf, MembersOf, ReferrersOf, KeyMembers,
           AddressMembers, AccountMembers;
      var a := accounts[id];
      ghost var next := accounts - {id};
      FewerNames(accounts, id);
      MembersOfOne(accounts, id);
      WithoutAccount(accounts, id);
      byKey := DropMembers(byKey, KeyMembers(a), id, KeysOf(accounts));
      byAddress := DropMembers(byAddress, AddressMembers(a), id, AddressesOf(accounts));
      byMember := DropMembers(byMember, AccountMembers(a), id, MembersOf(accounts));
      referredBy := EraseReferral(referredBy, ReferrersOf(accounts), id, a.referrer);
      var p := LowerBoundOf(a.name);
      FoundAtBoundary(escrows, accounts, id, p);
      if p < |escrows| && escrows[p].id == id {
        EraseLists(escrows, accounts, next, id, p);
        escrows := EraseAt(escrows, p);
      } else {
        NotConcerned(escrows, accounts, next, id);
      }
      accounts := accounts - {id};
    }

    /** An account is modified, possibly with another name. The lookups follow; the list of escrow agents does if and
        only if the account was not in it, or its new name keeps its place. */
    method Modify(id: AccountId, a: Account)
      requires Valid() && id in accounts && UniqueNames(accounts[id := a])
      modifies this
      ensures accounts == old(accounts)[id := a] && LookupsValid()
      ensures Valid() <==> (old(accounts)[id].isEscrow ==> KeepsPlace(old(accounts), id, a.name))
    {
      hide LookupsValid, Lists, UniqueNames, Boundary, KeepsPlace, InsertAt;
      var before := accounts[id];
      var p := LowerBoundOf(a.name);
      if before.isEscrow {
        PlaceKept(escrows, accounts, id, a.name, p);
      } else {
        NotListed(escrows, accounts, id);
      }
      if p < |escrows| && escrows[p].id == id {
        if a.isEscrow {
          RenameLists(escrows, accounts, id, a, p);
          escrows := escrows[p := Entry(id, a.name)];
        } else {
          EraseLists(escrows, accounts, accounts[id := a], id, p);
          escrows := EraseAt(escrows, p);
        }
      } else if a.isEscrow {
        if before.isEscrow {
          assert a.name != before.name by { SameNameKeepsPlace(accounts, id); }
          StaleAfterInsert(escrows, accounts, id, a, p);
        } else {
          InsertLists(escrows, accounts, id, a, p);
        }
        escrows := InsertAt(escrows, p, Entry(id, a.name));
      } else if before.isEscrow {
        StaleEntry(escrows, accounts, escrows, id, a);
      } else {
        NotConcerned(escrows, accounts, accounts[id := a], id);
      }
      ChangeLookups(id, before, a);
    }

    /** The undo database puts a removed account back without telling the secondary indexes: the lookup of its memo key
        misses it. */
    method PutBack(id: AccountId, a: Account)
      requires Valid() && id !in accounts && UniqueNames(accounts[id := a])
      modifies this`accounts
      ensures accounts == old(accounts)[id := a] && !LookupsValid()
      ensures Lists(escrows, accounts) <==> !a.isEscrow
    {
      ReinsertionUnnoticed(accounts, byKey, escrows, id, a);
      accounts := accounts[id := a];
    }

    /** filter_by_name: of the agents whose names have the prefix, in order, those from `start` on, up to `limit`. */
    method FilterByName(start: nat, limit: nat, prefix: string) returns (result: seq<Entry>)
      requires Lists(escrows, accounts)
      ensures var all := Matching(escrows, prefix);
              var end := if start + limit < |all| then start + limit else |all|;
              result == if start >= |all| then [] else all[start..end]
    {
      var p := LowerBound(escrows, prefix);
      MatchingIsRun(escrows, prefix, p);
      hide Matching, Lists, ByName, Boundary;
      ghost var all := Matching(escrows, prefix);
      result := [];
      if p + start >= |escrows| {
        return;
      }
      var i := p + start;
      while i < |escrows| && |result| < limit && HasPrefix(escrows[i].name, prefix)
        invariant p + start <= i <= |escrows| && |result| == i - p - start <= limit
        invariant |result| > 0 ==> i - p <= |all|
        invariant result == escrows[p + start..i]
      {
        assert i - p < |all|;
        result := result + [escrows[i]];
        i := i + 1;
      }
      assert start <= i - p <= |all| ==> result == all[start..i - p];
    }
  }

  datatype Change =
    | Adding(id: AccountId, account: Account)
    | Changing(id: AccountId, account: Account)
    | Dropping(id: AccountId)

  /** The accounts after a change. Names are unique, and fixed once given. */
  function After(accounts: map<AccountId, Account>, c: Change): map<AccountId, Account> {
    match c
    case Adding(id, a) =>
      if id in accounts || (exists x :: x in accounts && accounts[x].name == a.name) then accounts
      else accounts[id := a]
    case Changing(id, a) => if id in accounts then accounts[id := a.(name := accounts[id].name)] else accounts
    case Dropping(id) => accounts - {id}
  }

  function AfterAll(accounts: map<AccountId, Account>, changes: seq<Change>): map<AccountId, Account> {
    if changes == [] then accounts else After(AfterAll(accounts, changes[..|changes| - 1]), changes[|changes| - 1])
  }

  /** Over every run of changes that keep names, every index agrees with the accounts. */
  method Run(t: Accounts, changes: seq<Change>)
    requires t.Valid()
    modifies t
    ensures t.Valid() && t.accounts == AfterAll(old(t.accounts), changes)
  {
    for i := 0 to |changes|
      invariant t.Valid() && t.accounts == AfterAll(old(t.accounts), changes[..i])
    {
      assert changes[..i + 1][..i] == changes[..i];
      Perform(t, changes[i]);
    }
    assert changes[..|changes|] == changes;
  }

  method Perform(t: Accounts, c: Change)
    requires t.Valid()
    modifies t
    ensures t.Valid() && t.accounts == After(old(t.accounts), c)
  {
    hide Lists, Indexes, KeepsPlace;
    match c
    case Adding(id, a) =>
      if !(id in t.accounts || exists x :: x in t.accounts && t.accounts[x].name == a.name) {
        t.Insert(id, a);
      }
    case Changing(id, a) =>
      if id in t.accounts {
        SameNameKeepsPlace(t.accounts, id);
        t.Modify(id, a.(name := t.accounts[id].name));
      }
    case Dropping(id) =>
      if id in t.accounts {
        t.Remove(id);
      } else {
        assert t.accounts - {id} == t.accounts;
      }
  }

  /** Were an agent renamed past another one, its place would be lost. */
  lemma RenamedPastAnother(a: Account, b: Account)
    requires a.isEscrow && b.isEscrow && a.name == "b" && b.name == "c"
    ensures !KeepsPlace(map[1 := a, 2 := b], 1, "d")
  {
    assert NameLess("b", "d");
  }

  lemma NotListed(s: seq<Entry>, accounts: map<AccountId, Account>, id: AccountId)
    requires Lists(s, accounts) && id in accounts && !accounts[id].isEscrow
    ensures forall i :: 0 <= i < |s| ==> s[i].id != id
  {
  }

  lemma SameNameKeepsPlace(accounts: map<AccountId, Account>, id: AccountId)
    requires id in accounts
    ensures KeepsPlace(accounts, id, accounts[id].name)
  {
    NameLessTotal(accounts[id].name, accounts[id].name);
  }

  lemma StaleAfterInsert(s: seq<Entry>, accounts: map<AccountId, Account>, id: AccountId, a: Account, p: nat)
    requires Lists(s, accounts) && id in accounts && accounts[id].isEscrow && p <= |s| && a.name != accounts[id].name
    ensures !Lists(InsertAt(s, p, Entry(id, a.name)), accounts[id := a])
  {
    var t := InsertAt(s, p, Entry(id, a.name));
    forall x | x in s ensures x in t {
      assert s == s[..p] + s[p..];
    }
    StaleEntry(s, accounts, t, id, a);
  }

  /** The entries whose names have the prefix. */
  function Matching(s: seq<Entry>, prefix: string): seq<Entry> {
    if s == [] then []
    else (if HasPrefix(s[0].name, prefix) then [s[0]] else []) + Matching(s[1..], prefix)
  }

  lemma {:induction false} NoneMatching(s: seq<Entry>, prefix: string)
    requires forall i :: 0 <= i < |s| ==> !HasPrefix(s[i].name, prefix)
    ensures Matching(s, prefix) == []
  {
    if s != [] {
      NoneMatching(s[1..], prefix);
    }
  }

  /** In a sorted list the matching entries are a run that starts at the boundary of the prefix. */
  lemma {:induction false} MatchingIsRun(s: seq<Entry>, prefix: string, p: nat)
    requires ByName(s) && Boundary(s, prefix, p)
    ensures var all := Matching(s, prefix);
            && p + |all| <= |s| && all == s[p..p + |all|]
            && (forall i :: p <= i < |s| ==> (HasPrefix(s[i].name, prefix) <==> i < p + |all|))
    decreases |s|
  {
    hide NameLess;
    if s != [] {
      var rest := s[1..];
      assert forall i :: 1 <= i < |s| ==> s[i] == rest[i - 1];
      if p > 0 {
        NotBefore(prefix, s[0].name);
        MatchingIsRun(rest, prefix, p - 1);
      } else if HasPrefix(s[0].name, prefix) {
        MatchingIsRun(rest, prefix, 0);
      } else {
        forall i | 0 < i < |s| ensures !HasPrefix(s[i].name, prefix) {
          NoneAfter(prefix, s[0].name, s[i].name);
        }
        NoneMatching(s, prefix);
      }
    }
  }

  lemma NotBefore(prefix: string, x: string)
    ensures NameLess(x, prefix) ==> !HasPrefix(x, prefix)
  {
    if HasPrefix(x, prefix) { PrefixNotLess(prefix, x); }
  }

  lemma NoneAfter(prefix: string, x: string, y: string)
    requires !NameLess(x, prefix) && NameLess(x, y) && !HasPrefix(x, prefix)
    ensures !HasPrefix(y, prefix)
  {
    NameLessTotal(x, y);
    if HasPrefix(y, prefix) { PrefixIsRange(prefix, x, y); }
  }
}
