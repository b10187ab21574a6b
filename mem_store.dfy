/**
 * The AgencySpark server's `MemStorage`: a Map of users and a Map of contact
 * submissions, both keyed by id and kept in process memory. As in the other
 * store, a Map is a `map` plus its key insertion order, and fresh ids and the
 * clock are parameters.
 */
module MemStore {
  import opened Maybe
  import opened Schema
  import opened Listing

  /** The two Maps of `MemStorage`. */
  datatype Store = Store(
    users: map<string, User>,
    userOrder: seq<string>,
    contacts: map<string, ContactSubmission>,
    contactOrder: seq<string>)

  /** Each Map's key order lists its keys once each, and every record is filed under its own id. */
  predicate WellFormed(st: Store) {
    && OrderedKeys(st.users, st.userOrder)
    && (forall k :: k in st.users ==> st.users[k].id == k)
    && OrderedKeys(st.contacts, st.contactOrder)
    && (forall k :: k in st.contacts ==> st.contacts[k].id == k)
  }

  /** The state after `new MemStorage()`. */
  function EmptyStore(): (st: Store)
    ensures WellFormed(st)
    ensures st.users == map[] && st.contacts == map[]
  {
    Store(map[], [], map[], [])
  }

  /** `{ ...insertUser, id }`. */
  function NewUser(input: InsertUser, id: string): (u: User)
    ensures u.id == id && u.username == input.username && u.password == input.password
  {
    User(id, input.username, input.password)
  }

  /** The username test, as a function value. */
  function HasUsername(username: string): User -> bool { (u: User) => u.username == username }

  /** `Array.from(this.users.values())`. */
  function Users(st: Store): seq<User>
    requires WellFormed(st)
  {
    InOrder(st.users, st.userOrder)
  }

  /** `getUser`: `this.users.get(id)`. */
  function UserById(st: Store, id: string): (r: Option<User>)
    requires WellFormed(st)
    ensures r.None? <==> id !in st.users
    ensures r.Some? ==> r.value.id == id && r.value in st.users.Values
  {
    if id in st.users then Some(st.users[id]) else None
  }

  /** `getUserByUsername`: the first user in Map order with that username. */
  function UserByUsername(st: Store, username: string): Option<User>
    requires WellFormed(st)
  {
    FindFirst(Users(st), HasUsername(username))
  }

  /** `createUser`: the new user is set under its fresh id; the contacts are untouched. */
  function AddUser(st: Store, input: InsertUser, id: string): (r: Store)
    requires WellFormed(st) && id !in st.users
    ensures WellFormed(r)
    ensures r.users == st.users[id := NewUser(input, id)]
    ensures r.users.Keys == st.users.Keys + {id}
    ensures r.userOrder == st.userOrder + [id]
    ensures r.contacts == st.contacts && r.contactOrder == st.contactOrder
  {
    AppendNoDup(st.userOrder, id);
    st.(users := st.users[id := NewUser(input, id)], userOrder := st.userOrder + [id])
  }

  /** `createContactSubmission`: the new record is set under its fresh id; the users are untouched. */
  function AddContact(st: Store, input: InsertContact, id: string, now: Timestamp): (r: Store)
    requires WellFormed(st) && id !in st.contacts
    ensures WellFormed(r)
    ensures r.contacts == st.contacts[id := NewContact(input, id, now)]
    ensures r.contacts.Keys == st.contacts.Keys + {id}
    ensures r.contactOrder == st.contactOrder + [id]
    ensures r.users == st.users && r.userOrder == st.userOrder
  {
    AppendNoDup(st.contactOrder, id);
    st.(contacts := st.contacts[id := NewContact(input, id, now)],
        contactOrder := st.contactOrder + [id])
  }

  /** `getContactSubmissions`: all contacts, newest first. */
  function ListContacts(st: Store): seq<ContactSubmission>
    requires WellFormed(st)
  {
    SortDesc(InOrder(st.contacts, st.contactOrder), ContactTime)
  }

  /** A created user is returned by id; an id that was never created finds nothing. */
  lemma CreatedUserFound(st: Store, input: InsertUser, id: string, other: string)
    requires WellFormed(st) && id !in st.users
    requires other != id && other !in st.users
    ensures UserById(AddUser(st, input, id), id) == Some(NewUser(input, id))
    ensures UserById(AddUser(st, input, id), other).None?
  {
  }

  /** The username lookup returns a stored user with that name, and nothing exactly when no stored user has it. */
  lemma UserByUsernameSpec(st: Store, username: string)
    requires WellFormed(st)
    ensures UserByUsername(st, username).Some? ==>
              UserByUsername(st, username).value.username == username &&
              UserByUsername(st, username).value in st.users.Values
    ensures UserByUsername(st, username).None? <==> forall k :: k in st.users ==> st.users[k].username != username
  {
    var all := Users(st);
    InOrderValues(st.users, st.userOrder);
    if UserByUsername(st, username).None? {
      forall k | k in st.users ensures st.users[k].username != username {
        var i :| 0 <= i < |st.userOrder| && st.userOrder[i] == k;
        assert all[i] == st.users[k];
      }
    }
  }

  /** After creating a user, its username finds a user of that name. */
  lemma CreatedUserFoundByName(st: Store, input: InsertUser, id: string)
    requires WellFormed(st) && id !in st.users
    ensures UserByUsername(AddUser(st, input, id), input.username).Some?
  {
    var st' := AddUser(st, input, id);
    UserByUsernameSpec(st', input.username);
    assert st'.users[id].username == input.username;
  }

  /** The contact list holds exactly the stored contacts, once each, newest first. */
  lemma ListContactsSpec(st: Store)
    requires WellFormed(st)
    ensures SortedDesc(ListContacts(st), ContactTime)
    ensures |ListContacts(st)| == |st.contacts|
    ensures forall c :: c in ListContacts(st) <==> c in st.contacts.Values
  {
    var all := InOrder(st.contacts, st.contactOrder);
    SortDescSorted(all, ContactTime);
    SortDescPerm(all, ContactTime);
    InOrderValues(st.contacts, st.contactOrder);
    forall c ensures c in ListContacts(st) <==> c in all {
      assert c in ListContacts(st) <==> c in multiset(ListContacts(st));
    }
  }

  /** Each created contact is listed, and the list grows by exactly one per creation. */
  lemma CreatedContactCounted(st: Store, input: InsertContact, id: string, now: Timestamp)
    requires WellFormed(st) && id !in st.contacts
    ensures |ListContacts(AddContact(st, input, id, now))| == |ListContacts(st)| + 1
    ensures NewContact(input, id, now) in ListContacts(AddContact(st, input, id, now))
  {
    var st' := AddContact(st, input, id, now);
    ListContactsSpec(st);
    ListContactsSpec(st');
    assert st'.contacts[id] in st'.contacts.Values;
  }

  /** `MemStorage`: the users and contacts Maps, each method specified by the function above. */
  class MemStorage {
    var users: map<string, User>
    var userOrder: seq<string>
    var contacts: map<string, ContactSubmission>
    var contactOrder: seq<string>

    function State(): Store
      reads this
    {
      Store(users, userOrder, contacts, contactOrder)
    }

    ghost predicate Valid()
      reads this
    {
      WellFormed(State())
    }

    constructor ()
      ensures Valid() && State() == EmptyStore()
    {
      users, userOrder := map[], [];
      contacts, contactOrder := map[], [];
    }

    method GetUser(id: string) returns (r: Option<User>)
      requires Valid()
      ensures r == UserById(State(), id)
      ensures r.None? <==> id !in users
      ensures r.Some? ==> r.value == users[id]
    {
      r := if id in users then Some(users[id]) else None;
    }

    method GetUserByUsername(username: string) returns (r: Option<User>)
      requires Valid()
      ensures r == UserByUsername(State(), username)
      ensures r.Some? ==> r.value.username == username && r.value in users.Values
      ensures r.None? <==> forall k :: k in users ==> users[k].username != username
    {
      r := UserByUsername(State(), username);
      UserByUsernameSpec(State(), username);
    }

    method CreateUser(input: InsertUser, id: string) returns (u: User)
      requires Valid() && id !in users
      modifies this
      ensures Valid()
      ensures State() == AddUser(old(State()), input, id)
      ensures u == NewUser(input, id) && users[id] == u
      ensures contacts == old(contacts)
    {
      u := NewUser(input, id);
      users := users[id := u];
      userOrder := userOrder + [id];
    }

    method CreateContactSubmission(input: InsertContact, id: string, now: Timestamp) returns (c: ContactSubmission)
      requires Valid() && id !in contacts
      modifies this
      ensures Valid()
      ensures State() == AddContact(old(State()), input, id, now)
      ensures c == NewContact(input, id, now) && contacts[id] == c
      ensures users == old(users)
    {
      c := NewContact(input, id, now);
      contacts := contacts[id := c];
      contactOrder := contactOrder + [id];
    }

    method GetContactSubmissions() returns (r: seq<ContactSubmission>)
      requires Valid()
      ensures r == ListContacts(State())
      ensures SortedDesc(r, ContactTime)
      ensures |r| == |contacts|
      ensures forall c :: c in r <==> c in contacts.Values
    {
      r := ListContacts(State());
      ListContactsSpec(State());
    }
  }
}
