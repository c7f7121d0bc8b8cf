/** The User service: lookups of a user's roles and identifiers, the
    authentication types in use, and the operations that add, edit, delete
    and migrate a user's identifiers (UserProperty entities). */
module UserService {
  import opened Wrappers
  import opened Seqs
  import opened PhpStrings
  import opened Users
  import opened Errors
  import opened EntityService
  import opened UserPropertyEntity
  import opened Orm

  /** The `[name, value]` array a property is added or edited with. */
  datatype PropertyPair = PropertyPair(keyName: string, keyValue: string)

  /* ---------------------------------------------------------------------- */
  /* Authorisation                                                          */
  /* ---------------------------------------------------------------------- */

  /** `editUserAuthorization`: administrators may edit anyone, other
      registered users only themselves, unregistered users no one. */
  function EditUserAuthorization(user: UserId, currentUser: Option<User>): (r: Outcome<Error>)
    ensures r.Pass? <==> currentUser.Some? && (currentUser.value.isAdmin || currentUser.value.id == user)
    ensures currentUser.None? ==> r == Fail(UnregisteredEditor)
  {
    if currentUser.None? then Fail(UnregisteredEditor)
    else if currentUser.value.isAdmin then Pass
    else if currentUser.value.id == user then Pass
    else Fail(NotPermitted)
  }

  /** The two checks every public editing method makes before its
      transaction: the portal check on `portalUser` and the authorisation of
      `currentUser` to edit `user`. */
  predicate Permitted(cfg: Config, portalUser: Option<User>, user: UserId, currentUser: Option<User>) {
    CheckPortalIsNotReadOnlyOrUserIsAdmin(cfg, portalUser).Pass?
    && EditUserAuthorization(user, currentUser).Pass?
  }

  /* ---------------------------------------------------------------------- */
  /* Entities a user holds roles over                                       */
  /* ---------------------------------------------------------------------- */

  /** The DQL condition: a role over an entity of `kind` with status `status`. */
  function RoleOver(kind: EntityKind, status: string): Role -> bool {
    (r: Role) => r.ownedEntity.kind == kind && r.status == status
  }

  function OwnedEntities(roles: seq<Role>): (r: seq<OwnedEntity>)
    ensures |r| == |roles|
    ensures forall i | 0 <= i < |roles| :: r[i] == roles[i].ownedEntity
  {
    seq(|roles|, i requires 0 <= i < |roles| => roles[i].ownedEntity)
  }

  /** The inner loop of the `*FromRoles` methods: whether the entity is
      already in the list being built. */
  method AlreadyListed(entities: seq<OwnedEntity>, entity: OwnedEntity) returns (seen: bool)
    ensures seen <==> entity in entities
  {
    seen := false;
    var j := 0;
    while j < |entities| && !seen
      invariant 0 <= j <= |entities|
      invariant seen <==> exists k | 0 <= k < j :: entities[k] == entity
    {
      if entities[j] == entity {
        seen := true;
      }
      j := j + 1;
    }
  }

  /** The shared body of `getSitesFromRoles`, `getNgisFromRoles`,
      `getSGroupsFromRoles` and `getProjectsFromRoles`: the entities of
      `kind` the user holds a role with `roleStatus` over, each once, in the
      order their first role appears. */
  method EntitiesFromRoles(user: User, kind: EntityKind, roleStatus: string) returns (entities: seq<OwnedEntity>)
    ensures entities == Dedup(OwnedEntities(Filter(user.roles, RoleOver(kind, roleStatus))))
  {
    var roles := Filter(user.roles, RoleOver(kind, roleStatus));
    ghost var owned := OwnedEntities(roles);
    entities := [];
    var i := 0;
    while i < |roles|
      invariant 0 <= i <= |roles|
      invariant entities == Dedup(owned[..i])
    {
      var entity := roles[i].ownedEntity;
      // A user can hold more than one role over an entity.
      var seen := AlreadyListed(entities, entity);
      DedupSnoc(owned, i);
      if !seen {
        entities := entities + [entity];
      }
      i := i + 1;
    }
    assert owned[..|roles|] == owned;
  }

  method GetSitesFromRoles(user: User, roleStatus: string) returns (sites: seq<OwnedEntity>)
    ensures sites == Dedup(OwnedEntities(Filter(user.roles, RoleOver(Site, roleStatus))))
  {
    sites := EntitiesFromRoles(user, Site, roleStatus);
  }

  method GetNgisFromRoles(user: User, roleStatus: string) returns (ngis: seq<OwnedEntity>)
    ensures ngis == Dedup(OwnedEntities(Filter(user.roles, RoleOver(Ngi, roleStatus))))
  {
    ngis := EntitiesFromRoles(user, Ngi, roleStatus);
  }

  method GetSGroupsFromRoles(user: User, roleStatus: string) returns (sGroups: seq<OwnedEntity>)
    ensures sGroups == Dedup(OwnedEntities(Filter(user.roles, RoleOver(ServiceGroup, roleStatus))))
  {
    sGroups := EntitiesFromRoles(user, ServiceGroup, roleStatus);
  }

  method GetProjectsFromRoles(user: User, roleStatus: string) returns (projects: seq<OwnedEntity>)
    ensures projects == Dedup(OwnedEntities(Filter(user.roles, RoleOver(Project, roleStatus))))
  {
    projects := EntitiesFromRoles(user, Project, roleStatus);
  }

  /** What the role lists promise: no entity twice, exactly the entities of
      the matching roles, and in the order of their first matching role. */
  lemma RoleEntitiesListed(user: User, kind: EntityKind, roleStatus: string)
    ensures var roles := Filter(user.roles, RoleOver(kind, roleStatus));
            var listed := Dedup(OwnedEntities(roles));
            && (forall i, j | 0 <= i < j < |listed| :: listed[i] != listed[j])
            && (forall e :: e in listed <==>
                  exists r | r in user.roles ::
                    r.ownedEntity == e && r.ownedEntity.kind == kind && r.status == roleStatus)
            && (forall i, j | 0 <= i < j < |listed| ::
                  IndexOf(OwnedEntities(roles), listed[i]) < IndexOf(OwnedEntities(roles), listed[j]))
  {
    var roles := Filter(user.roles, RoleOver(kind, roleStatus));
    DedupKeepsFirstOccurrenceOrder(OwnedEntities(roles));
    forall e ensures e in OwnedEntities(roles) <==>
                       exists r | r in user.roles ::
                         r.ownedEntity == e && r.ownedEntity.kind == kind && r.status == roleStatus
    {
      if e in OwnedEntities(roles) {
        var k :| 0 <= k < |roles| && OwnedEntities(roles)[k] == e;
        assert roles[k] in roles;
      }
      if r :| r in user.roles && r.ownedEntity == e && r.ownedEntity.kind == kind && r.status == roleStatus {
        assert RoleOver(kind, roleStatus)(r);
        var k :| 0 <= k < |roles| && roles[k] == r;
        assert OwnedEntities(roles)[k] == e;
      }
    }
  }

  /* ---------------------------------------------------------------------- */
  /* Authentication types                                                   */
  /* ---------------------------------------------------------------------- */

  const X509Realms: seq<string> := ["X.509"]

  /** The Shibboleth realms: only the proxy IdP when `reduced`. */
  function ShibRealms(reduced: bool): seq<string> {
    if reduced then ["EGI Proxy IdP"] else ["EUDAT_SSO_IDP", "UK_ACCESS_FED", "EGI Proxy IdP"]
  }

  const IrisRealms: seq<string> := ["IRIS IAM - OIDC"]

  /** The realms one authentication token class contributes, by the
      substrings of its name, Shibboleth first, then X.509, then IRIS IAM. */
  function TokenRealms(tokenName: string, reduced: bool): seq<string> {
    (if Contains(tokenName, "Shib") then ShibRealms(reduced) else [])
    + (if Contains(tokenName, "X509") then X509Realms else [])
    + (if Contains(tokenName, "IAM") then IrisRealms else [])
  }

  /** The authentication types: the realms of each token, in token order. */
  function AuthTypes(tokenNames: seq<string>, reduced: bool): seq<string> {
    ConcatMap(tokenNames, t => TokenRealms(t, reduced))
  }

  /** `getAuthTypes($reducedRealms)` over the configured token class names. */
  method GetAuthTypes(authTokenNames: seq<string>, reducedRealms: bool) returns (authTypes: seq<string>)
    ensures authTypes == AuthTypes(authTokenNames, reducedRealms)
  {
    var shibRealms := ShibRealms(reducedRealms);
    authTypes := [];
    var i := 0;
    while i < |authTokenNames|
      invariant 0 <= i <= |authTokenNames|
      invariant authTypes == AuthTypes(authTokenNames[..i], reducedRealms)
    {
      var authTokenName := authTokenNames[i];
      ghost var before := authTypes;
      if Contains(authTokenName, "Shib") {
        authTypes := authTypes + shibRealms;
      }
      if Contains(authTokenName, "X509") {
        authTypes := authTypes + X509Realms;
      }
      if Contains(authTokenName, "IAM") {
        authTypes := authTypes + IrisRealms;
      }
      assert authTypes == before + TokenRealms(authTokenName, reducedRealms);
      assert authTokenNames[..i + 1][..i] == authTokenNames[..i];
      assert AuthTypes(authTokenNames[..i + 1], reducedRealms) ==
               AuthTypes(authTokenNames[..i], reducedRealms) + TokenRealms(authTokenName, reducedRealms);
      i := i + 1;
    }
    assert authTokenNames[..i] == authTokenNames;
  }

  /** An authentication type is listed exactly when some token contributes it. */
  lemma AuthTypesListed(tokenNames: seq<string>, reduced: bool, authType: string)
    ensures authType in AuthTypes(tokenNames, reduced) <==>
              exists i | 0 <= i < |tokenNames| :: authType in TokenRealms(tokenNames[i], reduced)
  {
    ConcatMapListed(tokenNames, t => TokenRealms(t, reduced), authType);
  }

  /** The reduced list, used to pick a default ID string, is part of the full
      list, used to validate a new property's type. */
  lemma ReducedAuthTypesAreValid(tokenNames: seq<string>)
    ensures forall a | a in AuthTypes(tokenNames, true) :: a in AuthTypes(tokenNames, false)
  {
    forall a | a in AuthTypes(tokenNames, true)
      ensures a in AuthTypes(tokenNames, false)
    {
      AuthTypesListed(tokenNames, true, a);
      AuthTypesListed(tokenNames, false, a);
      var i :| 0 <= i < |tokenNames| && a in TokenRealms(tokenNames[i], true);
      assert a in TokenRealms(tokenNames[i], false);
    }
  }

  /** X.509 is an authentication type exactly when an X509 token is configured. */
  lemma X509Listed(tokenNames: seq<string>, reduced: bool)
    ensures "X.509" in AuthTypes(tokenNames, reduced) <==>
              exists i | 0 <= i < |tokenNames| :: Contains(tokenNames[i], "X509")
  {
    AuthTypesListed(tokenNames, reduced, "X.509");
    forall t: string ensures "X.509" in TokenRealms(t, reduced) <==> Contains(t, "X509") {
      assert "X.509" !in ShibRealms(reduced);
      assert "X.509" !in IrisRealms;
    }
  }

  /* ---------------------------------------------------------------------- */
  /* ID strings of a user                                                   */
  /* ---------------------------------------------------------------------- */

  /** The value of the last property named `authType`, or null. */
  function LastValueNamed(props: seq<PropertyRow>, authType: string): Option<string> {
    if props == [] then None
    else if props[|props| - 1].keyName == Some(authType) then props[|props| - 1].keyValue
    else LastValueNamed(props[..|props| - 1], authType)
  }

  /** The last property named `authType` supplies the value. */
  lemma {:induction false} LastValueNamedIsLast(props: seq<PropertyRow>, authType: string, k: nat)
    requires k < |props| && props[k].keyName == Some(authType)
    requires forall j | k < j < |props| :: props[j].keyName != Some(authType)
    ensures LastValueNamed(props, authType) == props[k].keyValue
  {
    if k < |props| - 1 {
      LastValueNamedIsLast(props[..|props| - 1], authType, k);
    }
  }

  /** Without a property named `authType` there is no value. */
  lemma {:induction false} LastValueNamedAbsent(props: seq<PropertyRow>, authType: string)
    requires forall j | 0 <= j < |props| :: props[j].keyName != Some(authType)
    ensures LastValueNamed(props, authType) == None
  {
    if props != [] {
      LastValueNamedAbsent(props[..|props| - 1], authType);
    }
  }

  /** The ID string `getIdStringByAuthType` returns: the user's property of
      that type, or the legacy DN for X.509 when the user has no properties. */
  function IdStringByAuthType(d: Db, user: User, authType: string): Option<string> {
    var props := UserProperties(d.properties, user.id);
    if |props| == 0 && authType == "X.509" then user.certificateDn
    else LastValueNamed(props, authType)
  }

  /** `getIdStringByAuthType($user, $authType)`. */
  method GetIdStringByAuthType(d: Db, user: User, authType: string) returns (idString: Option<string>)
    ensures idString == IdStringByAuthType(d, user, authType)
  {
    var props := UserProperties(d.properties, user.id);
    idString := None;
    var i := 0;
    while i < |props|
      invariant 0 <= i <= |props|
      invariant idString == LastValueNamed(props[..i], authType)
    {
      assert props[..i + 1][..i] == props[..i];
      if props[i].keyName == Some(authType) {
        idString := props[i].keyValue;
      }
      i := i + 1;
    }
    assert props[..i] == props;
    if |props| == 0 && authType == "X.509" {
      idString := user.certificateDn;
    }
  }

  /** Under the unique (user, keyName) constraint, the ID string of a type is
      the value of the user's one property of that type. */
  lemma IdStringOfOwnProperty(d: Db, user: User, p: PropertyRow, authType: string)
    requires Consistent(d) && p in d.properties
    requires p.parentUser == Some(user.id) && p.keyName == Some(authType)
    ensures IdStringByAuthType(d, user, authType) == p.keyValue
  {
    var props := UserProperties(d.properties, user.id);
    FilterPairwise(d.properties, OwnedBy(user.id), PropertiesCompatible());
    assert OwnedBy(user.id)(p);
    var k :| 0 <= k < |props| && props[k] == p;
    forall j | k < j < |props| ensures props[j].keyName != Some(authType) {
      assert PropertiesCompatible()(props[k], props[j]);
      assert props[j] in props;
    }
    LastValueNamedIsLast(props, authType, k);
  }

  /** The first ID string found over `authTypes`, in order. */
  function FirstIdString(d: Db, user: User, authTypes: seq<string>): Option<string> {
    if authTypes == [] then None
    else
      var idString := IdStringByAuthType(d, user, authTypes[0]);
      if idString.Some? then idString else FirstIdString(d, user, authTypes[1..])
  }

  /** The search stops at the first type with an ID string. */
  lemma {:induction false} FirstIdStringAt(d: Db, user: User, authTypes: seq<string>, k: nat)
    requires k <= |authTypes|
    requires forall j | 0 <= j < k :: IdStringByAuthType(d, user, authTypes[j]).None?
    ensures k < |authTypes| ==>
              FirstIdString(d, user, authTypes) == FirstIdString(d, user, authTypes[k..])
    ensures k == |authTypes| ==> FirstIdString(d, user, authTypes) == None
  {
    if k > 0 {
      assert IdStringByAuthType(d, user, authTypes[0]).None?;
      FirstIdStringAt(d, user, authTypes[1..], k - 1);
      assert authTypes[1..][k - 1..] == authTypes[k..];
    }
  }

  /** What `getDefaultIdString` returns: the ID string of the first reduced
      authentication type the user has one for, otherwise the value of the
      user's first property; a user with neither makes it fail. */
  function DefaultIdString(d: Db, cfg: Config, user: User): Result<Option<string>, Error> {
    var found := FirstIdString(d, user, AuthTypes(cfg.authTokenNames, true));
    var props := UserProperties(d.properties, user.id);
    if found.Some? then Success(found)
    else if |props| == 0 then Failure(NoIdentifier)
    else Success(props[0].keyValue)
  }

  /** `getDefaultIdString($user)`. */
  method GetDefaultIdString(d: Db, cfg: Config, user: User) returns (r: Result<Option<string>, Error>)
    ensures r == DefaultIdString(d, cfg, user)
  {
    var authTypes := GetAuthTypes(cfg.authTokenNames, true);
    var idString: Option<string> := None;
    var i := 0;
    while i < |authTypes|
      invariant 0 <= i <= |authTypes|
      invariant idString.None?
      invariant forall j | 0 <= j < i :: IdStringByAuthType(d, user, authTypes[j]).None?
    {
      idString := GetIdStringByAuthType(d, user, authTypes[i]);
      if idString.Some? {
        FirstIdStringAt(d, user, authTypes, i);
        break;
      }
      i := i + 1;
    }
    if i == |authTypes| {
      FirstIdStringAt(d, user, authTypes, i);
    }
    if idString.None? {
      var props := UserProperties(d.properties, user.id);
      if |props| == 0 {
        return Failure(NoIdentifier);
      }
      idString := props[0].keyValue;
    }
    r := Success(idString);
  }

  /** The default ID string prefers the earliest reduced authentication type
      the user holds an ID string for. */
  lemma DefaultIdStringPrefersEarlierTypes(d: Db, cfg: Config, user: User, k: nat)
    requires var authTypes := AuthTypes(cfg.authTokenNames, true);
             k < |authTypes| && IdStringByAuthType(d, user, authTypes[k]).Some?
             && forall j | 0 <= j < k :: IdStringByAuthType(d, user, authTypes[j]).None?
    ensures DefaultIdString(d, cfg, user) ==
              Success(IdStringByAuthType(d, user, AuthTypes(cfg.authTokenNames, true)[k]))
  {
    var authTypes := AuthTypes(cfg.authTokenNames, true);
    FirstIdStringAt(d, user, authTypes, k);
  }

  /* ---------------------------------------------------------------------- */
  /* Validation of a property                                               */
  /* ---------------------------------------------------------------------- */

  /** `valdidateUniqueIdString`: an ID string is refused when a user has it
      as legacy DN or as a property value. A PHP-empty ID string is looked
      up by neither query, so it always passes. */
  function ValidateUniqueIdString(d: Db, idString: string): (r: Outcome<Error>)
    requires Consistent(d)
    ensures r.Pass? <==> Empty(idString) || IdStringFree(d, idString)
    ensures r.Fail? ==> r.error == IdStringRegistered || r.error == NonUniqueResult
  {
    PrincipleLookup(d, idString);
    match GetUserByCertificateDn(d, idString)
    case NonUnique => Fail(NonUniqueResult)
    case One(_) => Fail(IdStringRegistered)
    case NoResult => if GetUserByPrinciple(d, idString).One? then Fail(IdStringRegistered) else Pass
  }

  /** `valdidateAuthType`: the type must be one of the full list of
      authentication types. */
  method ValidateAuthType(authTokenNames: seq<string>, authType: string) returns (r: Outcome<Error>)
    ensures r.Pass? <==> authType in AuthTypes(authTokenNames, false)
    ensures r.Fail? ==> r.error == InvalidAuthType
  {
    var authTypes := GetAuthTypes(authTokenNames, false);
    if authType !in authTypes {
      return Fail(InvalidAuthType);
    }
    r := Pass;
  }

  /* ---------------------------------------------------------------------- */
  /* Adding a property                                                      */
  /* ---------------------------------------------------------------------- */

  /** When adding the (already trimmed) property `name` = `value` to user
      `uid` succeeds: the ID string is free, the type is valid, the user has
      no property of that type, the limit is kept, and the unique keyValue
      column accepts the row on flush. */
  predicate AddAllowed(d: Db, cfg: Config, uid: UserId, name: string, value: string) {
    && (Empty(value) || IdStringFree(d, value))
    && name in AuthTypes(cfg.authTokenNames, false)
    && !HasPropertyNamed(UserProperties(d.properties, uid), name)
    && |UserProperties(d.properties, uid)| + 1 <= cfg.extensionsLimit
    && !ValueTaken(d.properties, value)
  }

  /** The row a new property is flushed as: the next generated id. */
  function NewPropertyRow(d: Db, uid: UserId, name: string, value: string): PropertyRow {
    PropertyRow(Some(d.nextPropertyId), Some(uid), Some(name), Some(value))
  }

  /** The state after the new property is persisted. */
  function WithNewProperty(d: Db, uid: UserId, name: string, value: string): Db {
    d.(properties := d.properties + [NewPropertyRow(d, uid, name, value)],
       nextPropertyId := d.nextPropertyId + 1)
  }

  /** A new property of a fresh type and with a fresh value keeps the
      constraints, becomes the user's last property and leaves every other
      user's properties as they were. */
  lemma AddKeepsConsistent(d: Db, uid: UserId, name: string, value: string)
    requires Consistent(d) && uid in UserIds(d.users)
    requires !HasPropertyNamed(UserProperties(d.properties, uid), name)
    requires !ValueTaken(d.properties, value)
    ensures Consistent(WithNewProperty(d, uid, name, value))
    ensures UserProperties(WithNewProperty(d, uid, name, value).properties, uid) ==
              UserProperties(d.properties, uid) + [NewPropertyRow(d, uid, name, value)]
    ensures forall v | v != uid ::
              UserProperties(WithNewProperty(d, uid, name, value).properties, v) == UserProperties(d.properties, v)
  {
    NewRowCompatible(d, uid, name, value);
    PairwiseSnoc(d.properties, NewPropertyRow(d, uid, name, value), PropertiesCompatible());
    AddKeepsOwners(d, uid, name, value);
  }

  /** The new row clashes with no stored row: its value is free and its
      owner has no property of its type. */
  lemma NewRowCompatible(d: Db, uid: UserId, name: string, value: string)
    requires Consistent(d)
    requires !HasPropertyNamed(UserProperties(d.properties, uid), name)
    requires !ValueTaken(d.properties, value)
    ensures forall i | 0 <= i < |d.properties| ::
              PropertiesCompatible()(d.properties[i], NewPropertyRow(d, uid, name, value))
  {
    var row := NewPropertyRow(d, uid, name, value);
    var ps := d.properties;
    forall i | 0 <= i < |ps| ensures PropertiesCompatible()(ps[i], row) {
      assert ps[i] in ps && PropertyStored(d, ps[i]);
      if ps[i].parentUser == Some(uid) {
        assert OwnedBy(uid)(ps[i]);
        var props := UserProperties(ps, uid);
        var k :| 0 <= k < |props| && props[k] == ps[i];
        assert props[k].keyName != Some(name);
      }
    }
  }

  /** The new row becomes its owner's last property; other users'
      properties do not change. */
  lemma AddKeepsOwners(d: Db, uid: UserId, name: string, value: string)
    ensures UserProperties(WithNewProperty(d, uid, name, value).properties, uid) ==
              UserProperties(d.properties, uid) + [NewPropertyRow(d, uid, name, value)]
    ensures forall v | v != uid ::
              UserProperties(WithNewProperty(d, uid, name, value).properties, v) == UserProperties(d.properties, v)
  {
    var row := NewPropertyRow(d, uid, name, value);
    var ps := d.properties;
    FilterConcat(ps, [row], OwnedBy(uid));
    FilterSingleton(row, OwnedBy(uid));
    forall v | v != uid
      ensures UserProperties(ps + [row], v) == UserProperties(ps, v)
    {
      FilterConcat(ps, [row], OwnedBy(v));
      FilterSingleton(row, OwnedBy(v));
    }
  }

  /** After a property is added, the user is the one found by the new ID
      string, and the ID string is the one found for the new type. */
  lemma AddedIdStringFindsUser(d: Db, user: User, name: string, value: string)
    requires Consistent(d) && user in d.users
    requires !HasPropertyNamed(UserProperties(d.properties, user.id), name)
    requires !ValueTaken(d.properties, value) && !Empty(value)
    ensures GetUserByPrinciple(WithNewProperty(d, user.id, name, value), value) == One(user)
    ensures IdStringByAuthType(WithNewProperty(d, user.id, name, value), user, name) == Some(value)
  {
    var d' := WithNewProperty(d, user.id, name, value);
    AddKeepsConsistent(d, user.id, name, value);
    var row := NewPropertyRow(d, user.id, name, value);
    assert d'.properties[|d.properties|] == row;
    PrincipleLookup(d', value);
    assert HoldsIn(d'.properties, None, value)(user);
    UsersHoldingAtMostOne(d', None, value);
    assert user in UsersHolding(d', None, value);
    IdStringOfOwnProperty(d', user, row, name);
  }

  /** The added property is held by the user. */
  lemma NewPropertyHeld(d: Db, uid: UserId, name: string, value: string)
    ensures HoldsIdString(WithNewProperty(d, uid, name, value).properties, uid, Some(name), value)
  {
    var ps := WithNewProperty(d, uid, name, value).properties;
    assert ps[|d.properties|] == NewPropertyRow(d, uid, name, value);
  }

  /** The loop of `addUserPropertyLogic` over the user's properties: is
      there one of type `keyName` already? */
  method HasDuplicateName(existingProperties: seq<PropertyRow>, keyName: string) returns (duplicate: bool)
    ensures duplicate <==> HasPropertyNamed(existingProperties, keyName)
  {
    duplicate := false;
    var i := 0;
    while i < |existingProperties|
      invariant 0 <= i <= |existingProperties|
      invariant duplicate <==> exists k | 0 <= k < i :: existingProperties[k].keyName == Some(keyName)
    {
      if existingProperties[i].keyName == Some(keyName) {
        duplicate := true;
      }
      i := i + 1;
    }
  }

  /** `addUserPropertyLogic`: trims the name and value, validates them,
      refuses a second property of the same type, creates the UserProperty,
      joins it to the user and checks the limit; the flush then applies the
      unique keyValue constraint. */
  method AddUserPropertyLogic(d: Db, cfg: Config, uid: UserId, pair: PropertyPair) returns (r: Result<Db, Error>)
    requires Consistent(d) && uid in UserIds(d.users)
    ensures r.Success? <==> AddAllowed(d, cfg, uid, Trim(pair.keyName), Trim(pair.keyValue))
    ensures r.Success? ==> r.value == WithNewProperty(d, uid, Trim(pair.keyName), Trim(pair.keyValue))
    ensures r.Success? ==> Consistent(r.value)
    ensures !(Empty(Trim(pair.keyValue)) || IdStringFree(d, Trim(pair.keyValue))) ==>
              r == Failure(IdStringRegistered) || r == Failure(NonUniqueResult)
    ensures ((Empty(Trim(pair.keyValue)) || IdStringFree(d, Trim(pair.keyValue)))
             && Trim(pair.keyName) !in AuthTypes(cfg.authTokenNames, false)) ==> r == Failure(InvalidAuthType)
  {
    var keyName := Trim(pair.keyName);
    var keyValue := Trim(pair.keyValue);

    var unique := ValidateUniqueIdString(d, keyValue);
    if unique.Fail? {
      return Failure(unique.error);
    }
    var valid := ValidateAuthType(cfg.authTokenNames, keyName);
    if valid.Fail? {
      return Failure(valid.error);
    }
    r := JoinNewProperty(d, cfg, uid, keyName, keyValue);
  }

  /** The rest of `addUserPropertyLogic`, once the ID string and the type
      are valid: refuse a second property of the type, create the
      UserProperty and join it to the user, check the limit, and flush. */
  method JoinNewProperty(d: Db, cfg: Config, uid: UserId, keyName: string, keyValue: string)
    returns (r: Result<Db, Error>)
    requires Consistent(d) && uid in UserIds(d.users)
    requires Empty(keyValue) || IdStringFree(d, keyValue)
    requires keyName in AuthTypes(cfg.authTokenNames, false)
    ensures r.Success? <==> AddAllowed(d, cfg, uid, keyName, keyValue)
    ensures r.Success? ==> r.value == WithNewProperty(d, uid, keyName, keyValue)
    ensures r.Success? ==> Consistent(r.value)
  {
    var existingProperties := UserProperties(d.properties, uid);
    var propertyCount := |existingProperties|;
    var duplicate := HasDuplicateName(existingProperties, keyName);
    if duplicate {
      return Failure(DuplicatePropertyName);
    }

    var property := new UserProperty();
    property.SetKeyName(keyName);
    property.SetKeyValue(keyValue);
    property.SetParentUser(uid);
    propertyCount := propertyCount + 1;

    if propertyCount > cfg.extensionsLimit {
      return Failure(PropertyLimitExceeded);
    }

    // The flush: the generated id, then the unique keyValue constraint.
    if ValueTaken(d.properties, keyValue) {
      return Failure(ConstraintViolation);
    }
    var row := property.Row().(id := Some(d.nextPropertyId));
    assert row == NewPropertyRow(d, uid, keyName, keyValue);
    AddKeepsConsistent(d, uid, keyName, keyValue);
    r := Success(d.(properties := d.properties + [row], nextPropertyId := d.nextPropertyId + 1));
  }

  /** `addUserProperty` inside its transaction: the portal check on the user
      gaining the property, the authorisation of `currentUser`, then the
      logic. */
  method AddUserPropertyInTx(d: Db, cfg: Config, user: User, pair: PropertyPair, currentUser: User)
    returns (r: Result<Db, Error>)
    requires Consistent(d) && user in d.users
    ensures r.Success? <==>
              Permitted(cfg, Some(user), user.id, Some(currentUser))
              && AddAllowed(d, cfg, user.id, Trim(pair.keyName), Trim(pair.keyValue))
    ensures r.Success? ==> r.value == WithNewProperty(d, user.id, Trim(pair.keyName), Trim(pair.keyValue))
    ensures r.Success? ==> Consistent(r.value)
  {
    var portal := CheckPortalIsNotReadOnlyOrUserIsAdmin(cfg, Some(user));
    if portal.Fail? {
      return Failure(portal.error);
    }
    var auth := EditUserAuthorization(user.id, Some(currentUser));
    if auth.Fail? {
      return Failure(auth.error);
    }
    r := AddUserPropertyLogic(d, cfg, user.id, pair);
  }

  /** `addUserProperty`: commits the new property, or throws and leaves the
      store unchanged. */
  method AddUserProperty(st: Store, cfg: Config, user: User, pair: PropertyPair, currentUser: User)
    returns (r: Outcome<Error>)
    requires st.Valid() && user in st.users
    modifies st
    ensures st.Valid()
    ensures r.Pass? <==>
              Permitted(cfg, Some(user), user.id, Some(currentUser))
              && AddAllowed(old(st.Snapshot()), cfg, user.id, Trim(pair.keyName), Trim(pair.keyValue))
    ensures r.Pass? ==>
              st.Snapshot() == WithNewProperty(old(st.Snapshot()), user.id, Trim(pair.keyName), Trim(pair.keyValue))
    ensures r.Fail? ==> st.Snapshot() == old(st.Snapshot())
  {
    var tx := AddUserPropertyInTx(st.Snapshot(), cfg, user, pair, currentUser);
    if tx.Failure? {
      return Fail(tx.error);
    }
    st.Commit(tx.value);
    r := Pass;
  }

  /* ---------------------------------------------------------------------- */
  /* Editing a property                                                     */
  /* ---------------------------------------------------------------------- */

  /** When editing property `prop` of user `uid` to the (already trimmed)
      `name` = `value` succeeds: the property is the user's, something
      changes, a changed ID string is free, the type is valid, a changed type
      is not one the user already has, and the unique keyValue column accepts
      a changed value on flush. */
  predicate EditAllowed(d: Db, cfg: Config, uid: UserId, prop: PropertyRow, name: string, value: string) {
    && prop.parentUser == Some(uid)
    && !(Some(name) == prop.keyName && Some(value) == prop.keyValue)
    && (Some(value) != prop.keyValue ==> Empty(value) || IdStringFree(d, value))
    && name in AuthTypes(cfg.authTokenNames, false)
    && (Some(name) != prop.keyName ==> !HasPropertyNamed(UserProperties(d.properties, uid), name))
    && (Some(value) != prop.keyValue ==> !ValueTaken(d.properties, value))
  }

  function EditedRow(prop: PropertyRow, name: string, value: string): PropertyRow {
    prop.(keyName := Some(name), keyValue := Some(value))
  }

  /** The state after the edited property is merged and flushed. */
  function WithEditedProperty(d: Db, prop: PropertyRow, name: string, value: string): Db
    requires prop in d.properties
  {
    d.(properties := d.properties[IndexOf(d.properties, prop) := EditedRow(prop, name, value)])
  }

  /** The edited row meets the row constraints with every other row. */
  lemma EditedRowCompatible(d: Db, uid: UserId, prop: PropertyRow, name: string, value: string, i: nat)
    requires Consistent(d) && prop in d.properties && prop.parentUser == Some(uid)
    requires Some(name) != prop.keyName ==> !HasPropertyNamed(UserProperties(d.properties, uid), name)
    requires Some(value) != prop.keyValue ==> !ValueTaken(d.properties, value)
    requires i < |d.properties| && d.properties[i] != prop
    ensures PropertiesCompatible()(d.properties[i], EditedRow(prop, name, value))
    ensures PropertiesCompatible()(EditedRow(prop, name, value), d.properties[i])
  {
    var ps := d.properties;
    var k := IndexOf(ps, prop);
    var pi := ps[i];
    assert i < k ==> PropertiesCompatible()(pi, prop);
    assert k < i ==> PropertiesCompatible()(prop, pi);
    if pi.parentUser == Some(uid) && Some(name) != prop.keyName {
      assert OwnedBy(uid)(pi);
      var props := UserProperties(ps, uid);
      var j :| 0 <= j < |props| && props[j] == pi;
      assert props[j].keyName != Some(name);
    }
  }

  /** An edit to a type the user does not have yet and to a value no one
      has keeps the constraints. */
  lemma EditKeepsConsistent(d: Db, uid: UserId, prop: PropertyRow, name: string, value: string)
    requires Consistent(d) && prop in d.properties && prop.parentUser == Some(uid)
    requires Some(name) != prop.keyName ==> !HasPropertyNamed(UserProperties(d.properties, uid), name)
    requires Some(value) != prop.keyValue ==> !ValueTaken(d.properties, value)
    ensures Consistent(WithEditedProperty(d, prop, name, value))
  {
    var ps := d.properties;
    var k := IndexOf(ps, prop);
    var x := EditedRow(prop, name, value);
    var ps' := ps[k := x];
    forall i | 0 <= i < |ps| && i != k
      ensures PropertiesCompatible()(ps[i], x) && PropertiesCompatible()(x, ps[i])
    {
      PropertyRowsDistinct(d, if i < k then i else k, if i < k then k else i);
      EditedRowCompatible(d, uid, prop, name, value, i);
    }
    PairwiseUpdate(ps, k, x, PropertiesCompatible());
    forall p | p in ps' ensures PropertyStored(d, p) {
      var i :| 0 <= i < |ps'| && ps'[i] == p;
      if i != k {
        assert ps[i] in ps;
      }
    }
  }

  /** The edit replaces the property in its owner's list, in place: the
      owner keeps as many properties, the edited one among them, and other
      users' properties do not change. */
  lemma EditKeepsOwners(d: Db, uid: UserId, prop: PropertyRow, name: string, value: string)
    requires prop in d.properties && prop.parentUser == Some(uid)
    ensures |UserProperties(WithEditedProperty(d, prop, name, value).properties, uid)| ==
              |UserProperties(d.properties, uid)|
    ensures EditedRow(prop, name, value) in UserProperties(WithEditedProperty(d, prop, name, value).properties, uid)
    ensures forall v | v != uid ::
              UserProperties(WithEditedProperty(d, prop, name, value).properties, v) == UserProperties(d.properties, v)
  {
    var ps := d.properties;
    var k := IndexOf(ps, prop);
    var x := EditedRow(prop, name, value);
    var ps' := ps[k := x];
    assert ps'[..k] == ps[..k] && ps'[k + 1..] == ps[k + 1..];
    forall v
      ensures UserProperties(ps', v) ==
                Filter(ps[..k], OwnedBy(v)) + (if OwnedBy(v)(x) then [x] else []) + Filter(ps[k + 1..], OwnedBy(v))
      ensures UserProperties(ps, v) ==
                Filter(ps[..k], OwnedBy(v)) + (if OwnedBy(v)(prop) then [prop] else [])
                + Filter(ps[k + 1..], OwnedBy(v))
    {
      FilterSplit(ps', k, OwnedBy(v));
      FilterSplit(ps, k, OwnedBy(v));
    }
    assert OwnedBy(uid)(x) && ps'[k] == x;
  }

  /** `editUserPropertyLogic` with `editUserPropertyValidation`: trims the
      new name and value, validates them against the property being edited,
      then sets them on the managed entity, which the flush writes back
      under the unique keyValue constraint. */
  method EditUserPropertyLogic(d: Db, cfg: Config, uid: UserId, prop: PropertyRow, pair: PropertyPair)
    returns (r: Result<Db, Error>)
    requires Consistent(d) && uid in UserIds(d.users) && prop in d.properties
    ensures r.Success? <==> EditAllowed(d, cfg, uid, prop, Trim(pair.keyName), Trim(pair.keyValue))
    ensures r.Success? ==> r.value == WithEditedProperty(d, prop, Trim(pair.keyName), Trim(pair.keyValue))
    ensures r.Success? ==> Consistent(r.value)
    ensures prop.parentUser != Some(uid) ==> r == Failure(PropertyNotOwned)
    ensures (prop.parentUser == Some(uid) && Some(Trim(pair.keyName)) == prop.keyName
             && Some(Trim(pair.keyValue)) == prop.keyValue) ==> r == Failure(PropertyUnchanged)
  {
    var keyName := Trim(pair.keyName);
    var keyValue := Trim(pair.keyValue);

    if prop.parentUser != Some(uid) {
      return Failure(PropertyNotOwned);
    }
    if Some(keyName) == prop.keyName && Some(keyValue) == prop.keyValue {
      return Failure(PropertyUnchanged);
    }
    if Some(keyValue) != prop.keyValue {
      var unique := ValidateUniqueIdString(d, keyValue);
      if unique.Fail? {
        return Failure(unique.error);
      }
    }
    var valid := ValidateAuthType(cfg.authTokenNames, keyName);
    if valid.Fail? {
      return Failure(valid.error);
    }
    r := ApplyEdit(d, cfg, uid, prop, keyName, keyValue);
  }

  /** The rest of `editUserPropertyLogic`, once the property is the user's,
      something changes, and a changed ID string and the type are valid:
      refuse a changed type the user already has, set the new name and value
      on the entity, and flush. */
  method ApplyEdit(d: Db, cfg: Config, uid: UserId, prop: PropertyRow, keyName: string, keyValue: string)
    returns (r: Result<Db, Error>)
    requires Consistent(d) && uid in UserIds(d.users) && prop in d.properties
    requires prop.parentUser == Some(uid)
    requires !(Some(keyName) == prop.keyName && Some(keyValue) == prop.keyValue)
    requires Some(keyValue) != prop.keyValue ==> Empty(keyValue) || IdStringFree(d, keyValue)
    requires keyName in AuthTypes(cfg.authTokenNames, false)
    ensures r.Success? <==> EditAllowed(d, cfg, uid, prop, keyName, keyValue)
    ensures r.Success? ==> r.value == WithEditedProperty(d, prop, keyName, keyValue)
    ensures r.Success? ==> Consistent(r.value)
  {
    if Some(keyName) != prop.keyName {
      var existingProperties := UserProperties(d.properties, uid);
      var i := 0;
      while i < |existingProperties|
        invariant 0 <= i <= |existingProperties|
        invariant forall k | 0 <= k < i :: existingProperties[k].keyName != Some(keyName)
      {
        if existingProperties[i].keyName == Some(keyName) {
          return Failure(DuplicatePropertyName);
        }
        i := i + 1;
      }
    }

    var property := new UserProperty.FromRow(prop);
    property.SetKeyName(keyName);
    property.SetKeyValue(keyValue);

    // The flush: the unique keyValue constraint.
    if Some(keyValue) != prop.keyValue && ValueTaken(d.properties, keyValue) {
      return Failure(ConstraintViolation);
    }
    EditKeepsConsistent(d, uid, prop, keyName, keyValue);
    r := Success(d.(properties := d.properties[IndexOf(d.properties, prop) := property.Row()]));
  }

  /** `editUserProperty`: the portal check on the editing user, the
      authorisation, then the logic in a transaction that commits or leaves
      the store unchanged. */
  method EditUserProperty(st: Store, cfg: Config, user: User, prop: PropertyRow, pair: PropertyPair, currentUser: User)
    returns (r: Outcome<Error>)
    requires st.Valid() && user in st.users && prop in st.properties
    modifies st
    ensures st.Valid()
    ensures r.Pass? <==>
              Permitted(cfg, Some(currentUser), user.id, Some(currentUser))
              && EditAllowed(old(st.Snapshot()), cfg, user.id, prop, Trim(pair.keyName), Trim(pair.keyValue))
    ensures r.Pass? ==>
              st.Snapshot() == WithEditedProperty(old(st.Snapshot()), prop, Trim(pair.keyName), Trim(pair.keyValue))
    ensures r.Fail? ==> st.Snapshot() == old(st.Snapshot())
  {
    var portal := CheckPortalIsNotReadOnlyOrUserIsAdmin(cfg, Some(currentUser));
    if portal.Fail? {
      return Fail(portal.error);
    }
    var auth := EditUserAuthorization(user.id, Some(currentUser));
    if auth.Fail? {
      return Fail(auth.error);
    }
    var tx := EditUserPropertyLogic(st.Snapshot(), cfg, user.id, prop, pair);
    if tx.Failure? {
      return Fail(tx.error);
    }
    st.Commit(tx.value);
    r := Pass;
  }

  /* ---------------------------------------------------------------------- */
  /* Deleting a property                                                    */
  /* ---------------------------------------------------------------------- */

  function OtherThan(prop: PropertyRow): PropertyRow -> bool {
    (p: PropertyRow) => p != prop
  }

  /** `deleteUserPropertyLogic`: the property must be the user's and not
      the user's only one; it is removed from the user's collection and
      deleted. */
  function DeleteUserPropertyLogic(d: Db, uid: UserId, prop: PropertyRow): (r: Result<Db, Error>)
    requires Consistent(d) && prop in d.properties
    ensures r.Success? <==> prop.parentUser == Some(uid) && |UserProperties(d.properties, uid)| >= 2
    ensures prop.parentUser != Some(uid) ==> r == Failure(PropertyNotOwned)
    ensures prop.parentUser == Some(uid) && |UserProperties(d.properties, uid)| < 2 ==> r == Failure(LastIdentifier)
    ensures r.Success? ==> Consistent(r.value)
    ensures r.Success? ==> forall p :: p in r.value.properties <==> p in d.properties && p != prop
    ensures r.Success? ==> UserProperties(r.value.properties, uid) != []
    ensures r.Success? ==>
              forall v | v != uid :: UserProperties(r.value.properties, v) == UserProperties(d.properties, v)
    ensures r.Success? ==> r.value.users == d.users
  {
    if prop.parentUser != Some(uid) then Failure(PropertyNotOwned)
    else if |UserProperties(d.properties, uid)| < 2 then Failure(LastIdentifier)
    else
      var r := d.(properties := Filter(d.properties, OtherThan(prop)));
      DeletePropertyLemma(d, uid, prop, r);
      Success(r)
  }

  lemma DeletePropertyLemma(d: Db, uid: UserId, prop: PropertyRow, r: Db)
    requires Consistent(d) && prop in d.properties && prop.parentUser == Some(uid)
    requires |UserProperties(d.properties, uid)| >= 2
    requires r == d.(properties := Filter(d.properties, OtherThan(prop)))
    ensures Consistent(r)
    ensures UserProperties(r.properties, uid) != []
    ensures forall v | v != uid :: UserProperties(r.properties, v) == UserProperties(d.properties, v)
  {
    FilterPairwise(d.properties, OtherThan(prop), PropertiesCompatible());
    var props := UserProperties(d.properties, uid);
    FilterPairwise(d.properties, OwnedBy(uid), PropertiesCompatible());
    assert PropertiesCompatible()(props[0], props[1]);
    var kept := if props[0] != prop then props[0] else props[1];
    assert kept in props;
    assert kept in r.properties && OwnedBy(uid)(kept);
    assert kept in UserProperties(r.properties, uid);
    forall v | v != uid
      ensures UserProperties(r.properties, v) == UserProperties(d.properties, v)
    {
      FilterNested(d.properties, OtherThan(prop), OwnedBy(v));
    }
  }

  /** `deleteUserProperty`: the portal check on the user losing the
      property, the authorisation, then the logic in a transaction. */
  method DeleteUserProperty(st: Store, cfg: Config, user: User, prop: PropertyRow, currentUser: User)
    returns (r: Outcome<Error>)
    requires st.Valid() && user in st.users && prop in st.properties
    modifies st
    ensures st.Valid()
    ensures r.Pass? <==>
              Permitted(cfg, Some(user), user.id, Some(currentUser))
              && prop.parentUser == Some(user.id) && |UserProperties(old(st.properties), user.id)| >= 2
    ensures r.Pass? ==> st.Snapshot() == DeleteUserPropertyLogic(old(st.Snapshot()), user.id, prop).value
    ensures r.Fail? ==> st.Snapshot() == old(st.Snapshot())
  {
    var portal := CheckPortalIsNotReadOnlyOrUserIsAdmin(cfg, Some(user));
    if portal.Fail? {
      return Fail(portal.error);
    }
    var auth := EditUserAuthorization(user.id, Some(currentUser));
    if auth.Fail? {
      return Fail(auth.error);
    }
    var tx := DeleteUserPropertyLogic(st.Snapshot(), user.id, prop);
    if tx.Failure? {
      return Fail(tx.error);
    }
    st.Commit(tx.value);
    r := Pass;
  }

  /* ---------------------------------------------------------------------- */
  /* Migrating a legacy certificate DN to a property                        */
  /* ---------------------------------------------------------------------- */

  /** `setDefaultCertDn`, then `addUserPropertyLogic`, in one transaction
      after the checks of `migrateUserCredentials`: the new ID string must be
      the user's current certificate DN. */
  method MigrateUserCredentials(st: Store, cfg: Config, user: User, pair: PropertyPair, currentUser: User)
    returns (r: Outcome<Error>)
    requires st.Valid() && user in st.users
    modifies st
    ensures st.Valid()
    ensures r.Pass? <==>
              Permitted(cfg, Some(user), user.id, Some(currentUser))
              && user.certificateDn == Some(Trim(pair.keyValue))
              && AddAllowed(ClearedDn(old(st.Snapshot()), user), cfg, user.id, Trim(pair.keyName), Trim(pair.keyValue))
    ensures r.Pass? ==>
              st.Snapshot() ==
                WithNewProperty(ClearedDn(old(st.Snapshot()), user), user.id, Trim(pair.keyName), Trim(pair.keyValue))
    ensures r.Fail? ==> st.Snapshot() == old(st.Snapshot())
  {
    var portal := CheckPortalIsNotReadOnlyOrUserIsAdmin(cfg, Some(user));
    if portal.Fail? {
      return Fail(portal.error);
    }
    var auth := EditUserAuthorization(user.id, Some(currentUser));
    if auth.Fail? {
      return Fail(auth.error);
    }
    var idString := Trim(pair.keyValue);
    if Some(idString) != user.certificateDn {
      return Fail(CertificateDnMismatch);
    }
    var tx := MigrateInTx(st.Snapshot(), cfg, user, pair);
    if tx.Failure? {
      return Fail(tx.error);
    }
    st.Commit(tx.value);
    r := Pass;
  }

  /** The transaction of `migrateUserCredentials`: clear the certificate DN,
      then add the property. */
  method MigrateInTx(d: Db, cfg: Config, user: User, pair: PropertyPair) returns (r: Result<Db, Error>)
    requires Consistent(d) && user in d.users
    ensures r.Success? <==> AddAllowed(ClearedDn(d, user), cfg, user.id, Trim(pair.keyName), Trim(pair.keyValue))
    ensures r.Success? ==>
              r.value == WithNewProperty(ClearedDn(d, user), user.id, Trim(pair.keyName), Trim(pair.keyValue))
    ensures r.Success? ==> Consistent(r.value)
  {
    assert user.id in UserIds(d.users);
    ReplaceUserConsistent(d, user.(certificateDn := None));
    var cleared := ClearedDn(d, user);
    r := AddUserPropertyLogic(cleared, cfg, user.id, pair);
  }

  /** The state after `setDefaultCertDn`: the user's certificate DN is null. */
  function ClearedDn(d: Db, user: User): Db
    requires user in d.users
  {
    assert user.id in UserIds(d.users);
    SetCertificateDn(d, user.id, None)
  }

  /** Clearing a user's DN changes that user's DN and nothing else: every
      id finds the same user as before, the cleared one without its DN. */
  lemma ClearedDnFinds(d: Db, user: User, id: UserId)
    requires Consistent(d) && user in d.users
    ensures FindUser(ClearedDn(d, user).users, id) ==
              if id == user.id then Some(user.(certificateDn := None)) else FindUser(d.users, id)
  {
    var c := ClearedDn(d, user);
    FindUserUnique(d.users, user);
    ReplaceUserConsistent(d, user.(certificateDn := None));
    var found := FindUser(d.users, id);
    if found.Some? {
      var i :| 0 <= i < |d.users| && d.users[i] == found.value;
      FindUserUnique(c.users, c.users[i]);
    }
  }

  /** Clearing the DN first is what lets the migration pass the uniqueness
      check: a DN that only its owner holds is registered before the clear
      and free after it. */
  lemma MigrationFreesOwnDn(d: Db, user: User, dn: string)
    requires Consistent(d) && user in d.users && user.certificateDn == Some(dn)
    requires forall u | u in d.users && u.id != user.id :: u.certificateDn != Some(dn)
    requires !ValueTaken(d.properties, dn)
    ensures !IdStringFree(d, dn)
    ensures IdStringFree(ClearedDn(d, user), dn)
  {
    var c := ClearedDn(d, user);
    forall u | u in c.users ensures u.certificateDn != Some(dn) {
      var i :| 0 <= i < |c.users| && c.users[i] == u;
      if d.users[i].id == user.id {
        FindUserUnique(d.users, user);
      }
    }
  }

  /* ---------------------------------------------------------------------- */
  /* Deleting a user                                                        */
  /* ---------------------------------------------------------------------- */

  /** `deleteUser` inside its transaction: the portal check and the
      authorisation are both on `currentUser`; the removal cascades. */
  function DeleteUserInTx(d: Db, cfg: Config, user: User, currentUser: Option<User>): (r: Result<Db, Error>)
    requires Consistent(d) && user in d.users
    ensures r.Success? <==> Permitted(cfg, currentUser, user.id, currentUser)
    ensures r.Success? ==> Consistent(r.value) && UserIds(r.value.users) == UserIds(d.users) - {user.id}
    ensures r.Success? ==> UserProperties(r.value.properties, user.id) == []
    ensures r.Success? ==>
              forall v | v != user.id :: UserProperties(r.value.properties, v) == UserProperties(d.properties, v)
    ensures r.Success? ==> forall q | q in r.value.identityRequests :: q in d.identityRequests
  {
    var portal := CheckPortalIsNotReadOnlyOrUserIsAdmin(cfg, currentUser);
    var auth := EditUserAuthorization(user.id, currentUser);
    if portal.Fail? then Failure(portal.error)
    else if auth.Fail? then Failure(auth.error)
    else Success(RemoveUser(d, user.id))
  }

  /** `deleteUser`: commits the removal, or leaves the store unchanged. */
  method DeleteUser(st: Store, cfg: Config, user: User, currentUser: Option<User>) returns (r: Outcome<Error>)
    requires st.Valid() && user in st.users
    modifies st
    ensures st.Valid()
    ensures r.Pass? <==> Permitted(cfg, currentUser, user.id, currentUser)
    ensures r.Pass? ==> st.Snapshot() == RemoveUser(old(st.Snapshot()), user.id)
    ensures r.Fail? ==> st.Snapshot() == old(st.Snapshot())
  {
    var tx := DeleteUserInTx(st.Snapshot(), cfg, user, currentUser);
    if tx.Failure? {
      return Fail(tx.error);
    }
    st.Commit(tx.value);
    r := Pass;
  }
}
