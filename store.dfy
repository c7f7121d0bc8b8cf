/** The persisted state the services work on through Doctrine's entity
    manager: the User, UserProperty, LinkIdentityRequest and
    LinkAccountRequest tables, the constraints the schema puts on them, and
    the DQL lookups over them. */
module Orm {
  import opened Wrappers
  import opened Seqs
  import opened PhpStrings
  import opened Users
  import opened UserPropertyEntity
  import opened LinkIdentityRequestEntity
  import opened LinkAccountRequestEntity

  /** The tables, each in insertion order, and the next generated property id. */
  datatype Db = Db(
    users: seq<User>,
    properties: seq<PropertyRow>,
    identityRequests: seq<IdentityRequestRow>,
    accountRequests: seq<AccountRequestRow>,
    nextPropertyId: PropertyId)

  /** The result of `getOneOrNullResult()`: no row, one row, or the
      NonUniqueResultException thrown for more than one. */
  datatype Lookup<T> = NoResult | One(value: T) | NonUnique

  function Single<T>(rows: seq<T>): (r: Lookup<T>)
    ensures r.NoResult? <==> rows == []
    ensures r.One? <==> |rows| == 1
    ensures r.One? ==> r.value == rows[0]
  {
    if |rows| == 0 then NoResult else if |rows| == 1 then One(rows[0]) else NonUnique
  }

  /* ---------------------------------------------------------------------- */
  /* Constraints of the schema                                              */
  /* ---------------------------------------------------------------------- */

  function UserIds(users: seq<User>): set<UserId> {
    set u | u in users :: u.id
  }

  /** Two users are different rows of the User table. */
  function UsersDiffer(): (User, User) -> bool {
    (a: User, b: User) => a.id != b.id
  }

  /** The constraints between two rows of the User_Properties table: distinct
      primary keys, the unique (parentUser_id, keyName) pair and the unique
      keyValue column (several NULLs are allowed). */
  function PropertiesCompatible(): (PropertyRow, PropertyRow) -> bool {
    (a: PropertyRow, b: PropertyRow) =>
      a.id != b.id
      && (a.parentUser == b.parentUser ==> a.keyName != b.keyName)
      && (a.keyValue.None? || a.keyValue != b.keyValue)
  }

  /** A stored property has a generated id, a parent user that exists (the
      foreign key) and a keyName (the column is not nullable). */
  predicate PropertyStored(d: Db, p: PropertyRow) {
    p.id.Some? && p.id.value < d.nextPropertyId
    && p.parentUser.Some? && p.parentUser.value in UserIds(d.users)
    && p.keyName.Some?
  }

  /** The user foreign keys of an identity request point at existing users. */
  predicate IdentityRequestStored(d: Db, q: IdentityRequestRow) {
    q.primaryUser in UserIds(d.users)
    && (q.secondaryUser.Some? ==> q.secondaryUser.value in UserIds(d.users))
  }

  /** The user foreign keys of an account request point at existing users. */
  predicate AccountRequestStored(d: Db, q: AccountRequestRow) {
    q.primaryUser in UserIds(d.users)
    && (q.secondaryUser.Some? ==> q.secondaryUser.value in UserIds(d.users))
  }

  /** Every constraint the schema enforces holds. */
  predicate Consistent(d: Db) {
    && Pairwise(d.users, UsersDiffer())
    && (forall p | p in d.properties :: PropertyStored(d, p))
    && Pairwise(d.properties, PropertiesCompatible())
    && (forall q | q in d.identityRequests :: IdentityRequestStored(d, q))
    && (forall q | q in d.accountRequests :: AccountRequestStored(d, q))
  }

  /** Under the constraints, a property row occurs once, so it is identified
      by its position. */
  lemma PropertyRowsDistinct(d: Db, i: nat, j: nat)
    requires Consistent(d) && i < j < |d.properties|
    ensures d.properties[i] != d.properties[j]
  {
    assert PropertiesCompatible()(d.properties[i], d.properties[j]);
  }

  /* ---------------------------------------------------------------------- */
  /* Users                                                                  */
  /* ---------------------------------------------------------------------- */

  /** `getUser($id)`: the user with that id, or null. */
  function FindUser(users: seq<User>, id: UserId): (r: Option<User>)
    ensures r.Some? <==> id in UserIds(users)
    ensures r.Some? ==> r.value in users && r.value.id == id
  {
    if users == [] then None
    else
      assert UserIds(users) == {users[0].id} + UserIds(users[1..]) by {
        assert users == [users[0]] + users[1..];
      }
      if users[0].id == id then Some(users[0]) else FindUser(users[1..], id)
  }

  /** With distinct user ids, the user with an id is the only one. */
  lemma FindUserUnique(users: seq<User>, u: User)
    requires Pairwise(users, UsersDiffer()) && u in users
    ensures FindUser(users, u.id) == Some(u)
  {
  }

  /** The User table after the entity with `u`'s id is updated to `u`. */
  function ReplaceUser(users: seq<User>, u: User): (r: seq<User>)
    ensures |r| == |users|
    ensures forall i | 0 <= i < |users| :: r[i].id == users[i].id
    ensures forall i | 0 <= i < |users| :: r[i] == (if users[i].id == u.id then u else users[i])
  {
    seq(|users|, i requires 0 <= i < |users| => if users[i].id == u.id then u else users[i])
  }

  /** Updating a user changes no id and keeps the constraints. */
  lemma ReplaceUserConsistent(d: Db, u: User)
    requires Consistent(d)
    ensures UserIds(ReplaceUser(d.users, u)) == UserIds(d.users)
    ensures Consistent(d.(users := ReplaceUser(d.users, u)))
  {
    var r := ReplaceUser(d.users, u);
    forall id | id in UserIds(d.users) ensures id in UserIds(r) {
      var i :| 0 <= i < |d.users| && d.users[i].id == id;
      assert r[i].id == id;
    }
    forall id | id in UserIds(r) ensures id in UserIds(d.users) {
      var i :| 0 <= i < |r| && r[i].id == id;
      assert d.users[i].id == id;
    }
    forall i, j | 0 <= i < j < |r| ensures UsersDiffer()(r[i], r[j]) {
      assert UsersDiffer()(d.users[i], d.users[j]);
    }
  }

  /** `$user->setCertificateDn($dn)` followed by a flush. */
  function SetCertificateDn(d: Db, uid: UserId, dn: Option<string>): Db
    requires uid in UserIds(d.users)
  {
    var u := FindUser(d.users, uid).value;
    d.(users := ReplaceUser(d.users, u.(certificateDn := dn)))
  }

  /* ---------------------------------------------------------------------- */
  /* Properties                                                             */
  /* ---------------------------------------------------------------------- */

  function OwnedBy(uid: UserId): PropertyRow -> bool {
    (p: PropertyRow) => p.parentUser == Some(uid)
  }

  /** `$user->getUserProperties()`: the user's properties in table order. */
  function UserProperties(ps: seq<PropertyRow>, uid: UserId): seq<PropertyRow> {
    Filter(ps, OwnedBy(uid))
  }

  /** Some property has `idString` as its value. */
  predicate ValueTaken(ps: seq<PropertyRow>, idString: string) {
    exists i | 0 <= i < |ps| :: ps[i].keyValue == Some(idString)
  }

  /** Some property of the user, of type `authType` when one is given, has
      `idString` as its value. */
  predicate HoldsIdString(ps: seq<PropertyRow>, uid: UserId, authType: Option<string>, idString: string) {
    exists i | 0 <= i < |ps| ::
      ps[i].parentUser == Some(uid) && ps[i].keyValue == Some(idString)
      && (authType.None? || ps[i].keyName == authType)
  }

  /** A user keeps an identifier held by a row that a change keeps. */
  lemma HeldRowKept(ps: seq<PropertyRow>, ps': seq<PropertyRow>, uid: UserId, authType: string, idString: string)
    requires HoldsIdString(ps, uid, Some(authType), idString)
    requires forall p | p in ps && p.parentUser == Some(uid) && p.keyName == Some(authType) :: p in ps'
    ensures HoldsIdString(ps', uid, Some(authType), idString)
  {
    var i :| 0 <= i < |ps| && ps[i].parentUser == Some(uid) && ps[i].keyValue == Some(idString)
             && ps[i].keyName == Some(authType);
    assert ps[i] in ps;
    var j :| 0 <= j < |ps'| && ps'[j] == ps[i];
  }

  /** Some property of the user has the name `keyName`. */
  predicate HasPropertyNamed(ps: seq<PropertyRow>, keyName: string) {
    exists i | 0 <= i < |ps| :: ps[i].keyName == Some(keyName)
  }

  /** `getPropertyById($id)`. */
  function PropertyById(ps: seq<PropertyRow>, id: PropertyId): (r: Option<PropertyRow>)
    ensures r.Some? ==> r.value in ps && r.value.id == Some(id)
    ensures r.None? ==> forall p | p in ps :: p.id != Some(id)
  {
    if ps == [] then None
    else if ps[0].id == Some(id) then Some(ps[0])
    else PropertyById(ps[1..], id)
  }

  /* ---------------------------------------------------------------------- */
  /* DQL lookups of users                                                   */
  /* ---------------------------------------------------------------------- */

  function HasDn(dn: string): User -> bool {
    (u: User) => u.certificateDn == Some(dn)
  }

  function UsersWithDn(users: seq<User>, dn: string): seq<User> {
    Filter(users, HasDn(dn))
  }

  /** `getUserByCertificateDn`: null for a PHP-empty argument, otherwise the
      user whose legacy DN is the argument. */
  function GetUserByCertificateDn(d: Db, dn: string): (r: Lookup<User>)
    ensures r.NoResult? <==> Empty(dn) || forall u | u in d.users :: u.certificateDn != Some(dn)
    ensures r.One? ==> r.value in d.users && r.value.certificateDn == Some(dn)
    ensures r.One? ==> forall u | u in d.users && u.certificateDn == Some(dn) :: u == r.value
  {
    if Empty(dn) then NoResult
    else
      var found := UsersWithDn(d.users, dn);
      assert found == [] <==> forall u | u in d.users :: u.certificateDn != Some(dn) by {
        if found != [] { assert found[0] in found; }
      }
      assert |found| == 1 ==> forall u | u in found :: u == found[0] by {
        if |found| == 1 { assert found == [found[0]]; }
      }
      Single(found)
  }

  function HoldsIn(ps: seq<PropertyRow>, authType: Option<string>, idString: string): User -> bool {
    (u: User) => HoldsIdString(ps, u.id, authType, idString)
  }

  function UsersHolding(d: Db, authType: Option<string>, idString: string): seq<User> {
    Filter(d.users, HoldsIn(d.properties, authType, idString))
  }

  /** `getUserByPrinciple`: null for a PHP-empty argument, otherwise the user
      owning a property whose value is the argument. */
  function GetUserByPrinciple(d: Db, principle: string): Lookup<User> {
    if Empty(principle) then NoResult else Single(UsersHolding(d, None, principle))
  }

  /** `getUserByPrincipleAndType`: as `getUserByPrinciple`, restricted to
      properties of the given authentication type. */
  function GetUserByPrincipleAndType(d: Db, principle: string, authType: string): Lookup<User> {
    if Empty(principle) || Empty(authType) then NoResult
    else Single(UsersHolding(d, Some(authType), principle))
  }

  /** Because keyValue is unique, two users holding the same ID string are
      the same user. */
  lemma HoldersAgree(d: Db, authType: Option<string>, idString: string, a: User, b: User)
    requires Consistent(d)
    requires a in UsersHolding(d, authType, idString) && b in UsersHolding(d, authType, idString)
    ensures a.id == b.id
  {
    var ps := d.properties;
    assert HoldsIn(ps, authType, idString)(a) && HoldsIn(ps, authType, idString)(b);
    var i :| 0 <= i < |ps| && ps[i].parentUser == Some(a.id) && ps[i].keyValue == Some(idString);
    var j :| 0 <= j < |ps| && ps[j].parentUser == Some(b.id) && ps[j].keyValue == Some(idString);
    var pi, pj := ps[i], ps[j];
    assert i < j ==> PropertiesCompatible()(pi, pj);
    assert j < i ==> PropertiesCompatible()(pj, pi);
  }

  /** Because keyValue is unique, at most one user holds an ID string. */
  lemma UsersHoldingAtMostOne(d: Db, authType: Option<string>, idString: string)
    requires Consistent(d)
    ensures |UsersHolding(d, authType, idString)| <= 1
  {
    var found := UsersHolding(d, authType, idString);
    FilterPairwise(d.users, HoldsIn(d.properties, authType, idString), UsersDiffer());
    if |found| >= 2 {
      HoldersAgree(d, authType, idString, found[0], found[1]);
      assert false;
    }
  }

  /** Because every property has an existing parent, some user holds an ID
      string exactly when some property carries it. */
  lemma UsersHoldingNonEmpty(d: Db, authType: Option<string>, idString: string)
    requires Consistent(d)
    ensures UsersHolding(d, authType, idString) != [] <==>
              exists i | 0 <= i < |d.properties| ::
                d.properties[i].keyValue == Some(idString)
                && (authType.None? || d.properties[i].keyName == authType)
  {
    var found := UsersHolding(d, authType, idString);
    var ps := d.properties;
    if i :| 0 <= i < |ps| && ps[i].keyValue == Some(idString) && (authType.None? || ps[i].keyName == authType) {
      assert ps[i] in ps && PropertyStored(d, ps[i]);
      var u :| u in d.users && u.id == ps[i].parentUser.value;
      assert HoldsIn(ps, authType, idString)(u);
      assert u in found;
    }
    if found != [] {
      assert found[0] in found;
    }
  }

  /** `getUserByPrinciple` never throws NonUniqueResultException, and finds
      a user exactly when the argument is not PHP-empty and is some
      property's value. */
  lemma PrincipleLookup(d: Db, principle: string)
    requires Consistent(d)
    ensures !GetUserByPrinciple(d, principle).NonUnique?
    ensures GetUserByPrinciple(d, principle).One? <==> !Empty(principle) && ValueTaken(d.properties, principle)
    ensures GetUserByPrinciple(d, principle).One? ==>
              var u := GetUserByPrinciple(d, principle).value;
              u in d.users && HoldsIdString(d.properties, u.id, None, principle)
  {
    UsersHoldingAtMostOne(d, None, principle);
    UsersHoldingNonEmpty(d, None, principle);
    var found := UsersHolding(d, None, principle);
    if |found| == 1 {
      assert found[0] in found;
    }
  }

  /** `getUserByPrincipleAndType` never throws NonUniqueResultException, and
      what it finds holds the ID string as a property of that type. */
  lemma PrincipleAndTypeLookup(d: Db, principle: string, authType: string)
    requires Consistent(d)
    ensures !GetUserByPrincipleAndType(d, principle, authType).NonUnique?
    ensures GetUserByPrincipleAndType(d, principle, authType).One? ==>
              var u := GetUserByPrincipleAndType(d, principle, authType).value;
              u in d.users && HoldsIdString(d.properties, u.id, Some(authType), principle)
  {
    UsersHoldingAtMostOne(d, Some(authType), principle);
    var found := UsersHolding(d, Some(authType), principle);
    if |found| == 1 {
      assert found[0] in found;
    }
  }

  /** An ID string that no user and no property carries. */
  predicate IdStringFree(d: Db, idString: string) {
    (forall u | u in d.users :: u.certificateDn != Some(idString))
    && !ValueTaken(d.properties, idString)
  }

  /* ---------------------------------------------------------------------- */
  /* Removal of a user, cascading to what references it                     */
  /* ---------------------------------------------------------------------- */

  function NotUser(uid: UserId): User -> bool {
    (u: User) => u.id != uid
  }

  function NotOwnedBy(uid: UserId): PropertyRow -> bool {
    (p: PropertyRow) => p.parentUser != Some(uid)
  }

  function IdentityRequestAvoids(uid: UserId): IdentityRequestRow -> bool {
    (q: IdentityRequestRow) => q.primaryUser != uid && q.secondaryUser != Some(uid)
  }

  function AccountRequestAvoids(uid: UserId): AccountRequestRow -> bool {
    (q: AccountRequestRow) => q.primaryUser != uid && q.secondaryUser != Some(uid)
  }

  /** `$em->remove($user)`: the row goes, and with it, through
      `onDelete=CASCADE`, its properties and every request naming it. */
  function DropUser(d: Db, uid: UserId): (r: Db)
    ensures forall u :: u in r.users <==> u in d.users && u.id != uid
    ensures forall p :: p in r.properties <==> p in d.properties && p.parentUser != Some(uid)
    ensures forall q :: q in r.identityRequests <==>
              q in d.identityRequests && q.primaryUser != uid && q.secondaryUser != Some(uid)
    ensures forall q :: q in r.accountRequests <==>
              q in d.accountRequests && q.primaryUser != uid && q.secondaryUser != Some(uid)
    ensures r.nextPropertyId == d.nextPropertyId
  {
    Db(Filter(d.users, NotUser(uid)),
       Filter(d.properties, NotOwnedBy(uid)),
       Filter(d.identityRequests, IdentityRequestAvoids(uid)),
       Filter(d.accountRequests, AccountRequestAvoids(uid)),
       d.nextPropertyId)
  }

  /** Removing a user from a consistent state and flushing: the cascade
      keeps every constraint, and only that user and what it owned go. */
  function RemoveUser(d: Db, uid: UserId): (r: Db)
    requires Consistent(d)
    ensures Consistent(r)
    ensures UserIds(r.users) == UserIds(d.users) - {uid}
    ensures forall u | u in r.users :: u in d.users
    ensures UserProperties(r.properties, uid) == []
    ensures forall v | v != uid :: UserProperties(r.properties, v) == UserProperties(d.properties, v)
    ensures forall p | p in r.properties :: p in d.properties
    ensures forall q | q in r.identityRequests :: q in d.identityRequests
    ensures forall q | q in r.accountRequests :: q in d.accountRequests
  {
    var r := DropUser(d, uid);
    RemoveUserLemma(d, uid, r);
    r
  }

  lemma RemoveUserLemma(d: Db, uid: UserId, r: Db)
    requires Consistent(d)
    requires r == DropUser(d, uid)
    ensures Consistent(r)
    ensures UserIds(r.users) == UserIds(d.users) - {uid}
    ensures UserProperties(r.properties, uid) == []
    ensures forall v | v != uid :: UserProperties(r.properties, v) == UserProperties(d.properties, v)
  {
    DropUserIds(d, uid, r);
    FilterPairwise(d.users, NotUser(uid), UsersDiffer());
    FilterPairwise(d.properties, NotOwnedBy(uid), PropertiesCompatible());
    forall p | p in r.properties ensures PropertyStored(r, p) {
      assert PropertyStored(d, p);
    }
    forall q | q in r.identityRequests ensures IdentityRequestStored(r, q) {
      assert IdentityRequestStored(d, q);
    }
    forall q | q in r.accountRequests ensures AccountRequestStored(r, q) {
      assert AccountRequestStored(d, q);
    }
    DropUserOwners(d, uid, r);
  }

  /** The cascade removes exactly the one user id. */
  lemma DropUserIds(d: Db, uid: UserId, r: Db)
    requires r == DropUser(d, uid)
    ensures UserIds(r.users) == UserIds(d.users) - {uid}
  {
    forall id | id in UserIds(d.users) - {uid} ensures id in UserIds(r.users) {
      var u :| u in d.users && u.id == id;
      assert u in r.users;
    }
  }

  /** The cascade takes every property of the removed user and no other. */
  lemma DropUserOwners(d: Db, uid: UserId, r: Db)
    requires r == DropUser(d, uid)
    ensures UserProperties(r.properties, uid) == []
    ensures forall v | v != uid :: UserProperties(r.properties, v) == UserProperties(d.properties, v)
  {
    FilterNone(r.properties, OwnedBy(uid));
    forall v | v != uid
      ensures UserProperties(r.properties, v) == UserProperties(d.properties, v)
    {
      FilterNested(d.properties, NotOwnedBy(uid), OwnedBy(v));
    }
  }

  /* ---------------------------------------------------------------------- */
  /* The entity manager                                                     */
  /* ---------------------------------------------------------------------- */

  /** No identity request links a user to itself. */
  predicate NoSelfLinks(qs: seq<IdentityRequestRow>) {
    forall q | q in qs :: q.secondaryUser != Some(q.primaryUser)
  }

  /** The database behind Doctrine's entity manager. A service method works
      on a snapshot inside its transaction and commits the new state, or
      throws and leaves the store as it was. */
  class Store {
    var users: seq<User>
    var properties: seq<PropertyRow>
    var identityRequests: seq<IdentityRequestRow>
    var accountRequests: seq<AccountRequestRow>
    var nextPropertyId: PropertyId

    /** An empty database. */
    constructor ()
      ensures Snapshot() == Db([], [], [], [], 0)
      ensures Valid()
    {
      users := [];
      properties := [];
      identityRequests := [];
      accountRequests := [];
      nextPropertyId := 0;
    }

    function Snapshot(): Db
      reads this
    {
      Db(users, properties, identityRequests, accountRequests, nextPropertyId)
    }

    /** The schema's constraints, and no request linking a user to itself. */
    ghost predicate Valid()
      reads this
    {
      Consistent(Snapshot()) && NoSelfLinks(identityRequests)
    }

    /** Transaction commit: the store takes the state built in the transaction. */
    method Commit(d: Db)
      modifies this
      ensures Snapshot() == d
    {
      users := d.users;
      properties := d.properties;
      identityRequests := d.identityRequests;
      accountRequests := d.accountRequests;
      nextPropertyId := d.nextPropertyId;
    }
  }
}
