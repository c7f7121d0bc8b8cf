/** The LinkAccount service: the older form of account linking and recovery.
    A request carries one authentication type, nothing stops the requester
    from being the account's owner, and the confirmation applies every
    change in a single flush. */
module LinkAccountService {
  import opened Wrappers
  import opened Seqs
  import opened PhpStrings
  import opened Users
  import opened Errors
  import opened EntityService
  import opened UserPropertyEntity
  import opened LinkAccountRequestEntity
  import opened Orm
  import LinkIdentityService
  import UserService

  /* ---------------------------------------------------------------------- */
  /* Validation                                                             */
  /* ---------------------------------------------------------------------- */

  /** `validate`: the account named by the ID string (by a property of the
      type, else by its certificate DN) exists, and its e-mail address is
      the given one, ignoring case. */
  function Validate(d: Db, idString: string, authType: string, email: string): (r: Outcome<Error>)
    requires Consistent(d)
    ensures r.Pass? ==>
              exists u | u in d.users ::
                SameIgnoringCase(u.email, email)
                && (HoldsIdString(d.properties, u.id, Some(authType), idString) || u.certificateDn == Some(idString))
    ensures r == Fail(PrimaryUserNotFound) <==>
              GetUserByPrincipleAndType(d, idString, authType).NoResult?
              && GetUserByCertificateDn(d, idString).NoResult?
    ensures var primary := LinkIdentityService.LookupPrimaryUser(d, idString, authType);
            primary.Success? ==> (r.Pass? <==> SameIgnoringCase(primary.value.email, email))
    ensures r.Fail? ==> r.error in {PrimaryUserNotFound, NonUniqueResult, EmailMismatch}
  {
    var primary := LinkIdentityService.LookupPrimaryUser(d, idString, authType);
    if primary.Failure? then Fail(primary.error)
    else if !SameIgnoringCase(primary.value.email, email) then Fail(EmailMismatch)
    else Pass
  }

  /* ---------------------------------------------------------------------- */
  /* Lookups                                                                */
  /* ---------------------------------------------------------------------- */

  function Mentions(idString: string): AccountRequestRow -> bool {
    (q: AccountRequestRow) => q.primaryIdString == idString || q.secondaryIdString == idString
  }

  function NotMentioning(idString: string): AccountRequestRow -> bool {
    (q: AccountRequestRow) => q.primaryIdString != idString && q.secondaryIdString != idString
  }

  /** `getLinkAccountRequestByIdString`: the request naming the ID string as
      its primary or secondary ID string. */
  function GetLinkAccountRequestByIdString(d: Db, idString: string): (r: Lookup<AccountRequestRow>)
    ensures r.NoResult? <==> forall q | q in d.accountRequests :: NotMentioning(idString)(q)
    ensures r.One? ==> r.value in d.accountRequests && Mentions(idString)(r.value)
    ensures r.One? ==> forall q | q in d.accountRequests && Mentions(idString)(q) :: q == r.value
  {
    var found := Filter(d.accountRequests, Mentions(idString));
    assert found == [] <==> forall q | q in d.accountRequests :: NotMentioning(idString)(q) by {
      if found != [] { assert found[0] in found; }
    }
    assert |found| == 1 ==> forall q | q in found :: q == found[0];
    Single(found)
  }

  function HasCode(code: string): AccountRequestRow -> bool {
    (q: AccountRequestRow) => q.confirmCode == code
  }

  /** `getLinkAccountRequestByConfirmationCode`. */
  function GetLinkAccountRequestByConfirmationCode(d: Db, code: string): (r: Lookup<AccountRequestRow>)
    ensures r.NoResult? <==> forall q | q in d.accountRequests :: q.confirmCode != code
    ensures r.One? ==> r.value in d.accountRequests && r.value.confirmCode == code
    ensures r.One? ==> forall q | q in d.accountRequests && q.confirmCode == code :: q == r.value
  {
    var found := Filter(d.accountRequests, HasCode(code));
    assert found == [] <==> forall q | q in d.accountRequests :: q.confirmCode != code by {
      if found != [] { assert found[0] in found; }
      if q :| q in d.accountRequests && q.confirmCode == code { assert HasCode(code)(q); }
    }
    assert |found| == 1 ==> forall q | q in found :: q == found[0];
    Single(found)
  }

  function HasPrimaryUser(uid: UserId): AccountRequestRow -> bool {
    (q: AccountRequestRow) => q.primaryUser == uid
  }

  /** `getLinkAccountRequestByUserId`: the request whose primary user has the id. */
  function GetLinkAccountRequestByUserId(d: Db, uid: UserId): (r: Lookup<AccountRequestRow>)
    ensures r.NoResult? <==> forall q | q in d.accountRequests :: q.primaryUser != uid
    ensures r.One? ==> r.value in d.accountRequests && r.value.primaryUser == uid
    ensures r.One? ==> forall q | q in d.accountRequests && q.primaryUser == uid :: q == r.value
  {
    var found := Filter(d.accountRequests, HasPrimaryUser(uid));
    assert found == [] <==> forall q | q in d.accountRequests :: q.primaryUser != uid by {
      if found != [] { assert found[0] in found; }
      if q :| q in d.accountRequests && q.primaryUser == uid { assert HasPrimaryUser(uid)(q); }
    }
    assert |found| == 1 ==> forall q | q in found :: q == found[0];
    Single(found)
  }

  /* ---------------------------------------------------------------------- */
  /* E-mail                                                                 */
  /* ---------------------------------------------------------------------- */

  /** `composeEmail`: the subject by request type; any other type throws. */
  function ComposeEmail(requestType: string): (r: Result<string, Error>)
    ensures r.Success? <==> requestType == "link" || requestType == "recover"
    ensures r.Failure? ==> r.error == InvalidRequestType
    ensures requestType == "link" ==> r == Success("Validation of linking your GOCDB account")
    ensures requestType == "recover" ==> r == Success("Validation of recovering your GOCDB account")
  {
    if requestType == "link" then Success("Validation of linking your GOCDB account")
    else if requestType == "recover" then Success("Validation of recovering your GOCDB account")
    else Failure(InvalidRequestType)
  }

  /* ---------------------------------------------------------------------- */
  /* A new request                                                          */
  /* ---------------------------------------------------------------------- */

  /** The unique indexes on the join columns of the two one-to-one
      associations: no other request may have the same primary user, or the
      same secondary user when there is one. */
  predicate RequestUsersTaken(qs: seq<AccountRequestRow>, q: AccountRequestRow) {
    exists i | 0 <= i < |qs| ::
      qs[i].primaryUser == q.primaryUser || (q.secondaryUser.Some? && qs[i].secondaryUser == q.secondaryUser)
  }

  function OtherRequest(q: AccountRequestRow): AccountRequestRow -> bool {
    (p: AccountRequestRow) => p != q
  }

  /** Requests that do not mention an ID string, and one new request that
      does: the lookup by that ID string finds the new one. */
  lemma NewRequestFound(d: Db, idString: string, qs: seq<AccountRequestRow>, q: AccountRequestRow)
    requires q.secondaryIdString == idString
    requires d.accountRequests == Filter(qs, NotMentioning(idString)) + [q]
    ensures GetLinkAccountRequestByIdString(d, idString) == One(q)
  {
    var kept := Filter(qs, NotMentioning(idString));
    FilterConcat(kept, [q], Mentions(idString));
    FilterNone(kept, Mentions(idString));
    assert [q][1..] == [];
    assert Filter(d.accountRequests, Mentions(idString)) == [q];
  }

  /** Lines 70-82 of `newLinkAccountRequest`: the request already mentioning
      the current ID string, if any, is removed and committed. */
  method RemovePreviousRequest(st: Store, currentIdString: string) returns (r: Outcome<Error>)
    requires st.Valid()
    modifies st
    ensures st.Valid()
    ensures st.users == old(st.users) && st.properties == old(st.properties)
    ensures st.identityRequests == old(st.identityRequests) && st.nextPropertyId == old(st.nextPropertyId)
    ensures r.Pass? <==> !GetLinkAccountRequestByIdString(old(st.Snapshot()), currentIdString).NonUnique?
    ensures r.Fail? ==> r.error == NonUniqueResult && st.accountRequests == old(st.accountRequests)
    ensures r.Pass? ==> st.accountRequests == Filter(old(st.accountRequests), NotMentioning(currentIdString))
  {
    var d := st.Snapshot();
    var previousRequest := GetLinkAccountRequestByIdString(d, currentIdString);
    if previousRequest.NonUnique? {
      return Fail(NonUniqueResult);
    }
    if previousRequest.One? {
      var remaining := Filter(d.accountRequests, OtherRequest(previousRequest.value));
      forall i | 0 <= i < |d.accountRequests|
        ensures OtherRequest(previousRequest.value)(d.accountRequests[i]) ==
                NotMentioning(currentIdString)(d.accountRequests[i])
      {
        assert d.accountRequests[i] in d.accountRequests;
      }
      FilterSame(d.accountRequests, OtherRequest(previousRequest.value), NotMentioning(currentIdString));
      st.Commit(d.(accountRequests := remaining));
    } else {
      FilterAll(d.accountRequests, NotMentioning(currentIdString));
    }
    r := Pass;
  }

  /** Lines 97-112 of `newLinkAccountRequest`: the new request is flushed,
      where the unique join columns may reject it, and committed once the
      confirmation e-mail is accepted for delivery. */
  method PersistRequest(st: Store, linkAccountReq: LinkAccountRequest, mailDelivered: bool) returns (r: Outcome<Error>)
    requires st.Valid()
    requires AccountRequestStored(st.Snapshot(), linkAccountReq.Row())
    modifies st
    ensures st.Valid()
    ensures st.users == old(st.users) && st.properties == old(st.properties)
    ensures st.identityRequests == old(st.identityRequests) && st.nextPropertyId == old(st.nextPropertyId)
    ensures r.Pass? <==> !RequestUsersTaken(old(st.accountRequests), linkAccountReq.Row()) && mailDelivered
    ensures r.Pass? ==> st.accountRequests == old(st.accountRequests) + [linkAccountReq.Row()]
    ensures r.Fail? ==> st.accountRequests == old(st.accountRequests)
    ensures r.Fail? ==> r.error == ConstraintViolation || r.error == MailNotSent
  {
    var row := linkAccountReq.Row();
    if RequestUsersTaken(st.accountRequests, row) {
      return Fail(ConstraintViolation);
    }
    if !mailDelivered {
      return Fail(MailNotSent);
    }
    st.Commit(st.Snapshot().(accountRequests := st.accountRequests + [row]));
    r := Pass;
  }

  /** `newLinkAccountRequest`. The constructor of LinkAccountRequest takes
      six arguments: the seventh, the current authentication type, is
      dropped, so the request records only the primary one. `code` is the
      generated confirmation code and `mailDelivered` what `mail()`
      returned. */
  method NewLinkAccountRequest(st: Store, cfg: Config, currentIdString: string, givenEmail: string,
                               primaryIdString: string, primaryAuthType: string, currentAuthType: string,
                               code: string, mailDelivered: bool)
    returns (r: Outcome<Error>)
    requires st.Valid()
    modifies st
    ensures st.Valid()
    ensures st.users == old(st.users) && st.properties == old(st.properties)
    ensures st.identityRequests == old(st.identityRequests) && st.nextPropertyId == old(st.nextPropertyId)
    ensures Validate(old(st.Snapshot()), primaryIdString, primaryAuthType, givenEmail).Fail? ==>
              r == Validate(old(st.Snapshot()), primaryIdString, primaryAuthType, givenEmail)
              && st.accountRequests == old(st.accountRequests)
    ensures r.Fail? ==>
              st.accountRequests == old(st.accountRequests)
              || st.accountRequests == Filter(old(st.accountRequests), NotMentioning(currentIdString))
    ensures r.Pass? ==>
              var primary :=
                LinkIdentityService.LookupPrimaryUser(old(st.Snapshot()), primaryIdString, primaryAuthType);
              var current := LinkIdentityService.UserByPrinciple(old(st.Snapshot()), currentIdString);
              var row := AccountRequestRow(primary.value.id, LinkIdentityService.UserIdOf(current), code,
                                           primaryIdString, currentIdString, primaryAuthType);
              && Validate(old(st.Snapshot()), primaryIdString, primaryAuthType, givenEmail).Pass?
              && primary.Success?
              && CheckPortalIsNotReadOnlyOrUserIsAdmin(cfg, current).Pass?
              && mailDelivered
              && st.accountRequests == Filter(old(st.accountRequests), NotMentioning(currentIdString)) + [row]
              && GetLinkAccountRequestByIdString(st.Snapshot(), currentIdString) == One(row)
    // The primary found with that e-mail, the portal check passing, the
    // earlier request removable, the new request's user columns free and
    // the e-mail sent: the request is filed.
    ensures var primary := LinkIdentityService.LookupPrimaryUser(old(st.Snapshot()), primaryIdString, primaryAuthType);
            var current := LinkIdentityService.UserByPrinciple(old(st.Snapshot()), currentIdString);
            (&& primary.Success?
             && SameIgnoringCase(primary.value.email, givenEmail)
             && CheckPortalIsNotReadOnlyOrUserIsAdmin(cfg, current).Pass?
             && !GetLinkAccountRequestByIdString(old(st.Snapshot()), currentIdString).NonUnique?
             && !RequestUsersTaken(Filter(old(st.accountRequests), NotMentioning(currentIdString)),
                                   AccountRequestRow(primary.value.id, LinkIdentityService.UserIdOf(current), code,
                                                     primaryIdString, currentIdString, primaryAuthType))
             && mailDelivered)
            ==> r.Pass?
  {
    var d := st.Snapshot();
    var primary := LinkIdentityService.LookupPrimaryUser(d, primaryIdString, primaryAuthType);
    if primary.Failure? {
      return Fail(primary.error);
    }
    var primaryUser := primary.value;
    if !SameIgnoringCase(primaryUser.email, givenEmail) {
      return Fail(EmailMismatch);
    }
    var currentUser := LinkIdentityService.UserByPrinciple(d, currentIdString);
    var portal := CheckPortalIsNotReadOnlyOrUserIsAdmin(cfg, currentUser);
    if portal.Fail? {
      return Fail(portal.error);
    }

    var row := AccountRequestRow(primaryUser.id, LinkIdentityService.UserIdOf(currentUser), code,
                                 primaryIdString, currentIdString, primaryAuthType);
    assert AccountRequestStored(d, row);
    r := FileRequest(st, row, currentAuthType, mailDelivered);
  }

  /** Lines 70-112 of `newLinkAccountRequest` once the checks pass: the
      previous request is removed, the new one built through its setters,
      the e-mail subject composed, and the request persisted. */
  method FileRequest(st: Store, row: AccountRequestRow, currentAuthType: string, mailDelivered: bool)
    returns (r: Outcome<Error>)
    requires st.Valid() && AccountRequestStored(st.Snapshot(), row)
    modifies st
    ensures st.Valid()
    ensures st.users == old(st.users) && st.properties == old(st.properties)
    ensures st.identityRequests == old(st.identityRequests) && st.nextPropertyId == old(st.nextPropertyId)
    ensures r.Fail? ==>
              st.accountRequests == old(st.accountRequests)
              || st.accountRequests == Filter(old(st.accountRequests), NotMentioning(row.secondaryIdString))
    ensures r.Pass? ==>
              && mailDelivered
              && st.accountRequests == Filter(old(st.accountRequests), NotMentioning(row.secondaryIdString)) + [row]
              && GetLinkAccountRequestByIdString(st.Snapshot(), row.secondaryIdString) == One(row)
    ensures r.Pass? <==>
              && !GetLinkAccountRequestByIdString(old(st.Snapshot()), row.secondaryIdString).NonUnique?
              && !RequestUsersTaken(Filter(old(st.accountRequests), NotMentioning(row.secondaryIdString)), row)
              && mailDelivered
  {
    var removed := RemovePreviousRequest(st, row.secondaryIdString);
    if removed.Fail? {
      return removed;
    }

    var linkAccountReq := new LinkAccountRequest(row.primaryUser, row.secondaryUser, row.confirmCode,
                                                 row.primaryIdString, row.secondaryIdString, row.authType);
    // The subject `sendConfirmationEmail` uses; `mailDelivered` is whether
    // the e-mail was accepted for delivery.
    var subject := ComposeEmail(LinkIdentityService.RequestType(row.authType, currentAuthType));
    r := PersistRequest(st, linkAccountReq, mailDelivered);
    if r.Pass? {
      NewRequestFound(st.Snapshot(), row.secondaryIdString, old(st.accountRequests), row);
    }
  }

  /* ---------------------------------------------------------------------- */
  /* Confirmation                                                           */
  /* ---------------------------------------------------------------------- */

  /** The primary user of a stored request (its foreign key). */
  function PrimaryUserOf(d: Db, q: AccountRequestRow): (u: User)
    requires Consistent(d) && q in d.accountRequests
    ensures u in d.users && u.id == q.primaryUser
  {
    assert AccountRequestStored(d, q);
    FindUser(d.users, q.primaryUser).value
  }

  /** The position of the user's property named `name`, if there is one. */
  function NamedIndex(ps: seq<PropertyRow>, uid: UserId, name: string): (k: Option<nat>)
    ensures k.Some? ==> k.value < |ps| && ps[k.value].parentUser == Some(uid) && ps[k.value].keyName == Some(name)
    ensures k.None? ==> forall i | 0 <= i < |ps| :: !(ps[i].parentUser == Some(uid) && ps[i].keyName == Some(name))
  {
    if ps == [] then None
    else if ps[0].parentUser == Some(uid) && ps[0].keyName == Some(name) then Some(0)
    else
      var rest := NamedIndex(ps[1..], uid, name);
      assert forall i | 1 <= i < |ps| :: ps[i] == ps[1..][i - 1];
      if rest.Some? then Some(rest.value + 1) else None
  }

  /** The search by position agrees with `getUserProperties()` holding a
      property of that name. */
  lemma NamedIndexHasProperty(ps: seq<PropertyRow>, uid: UserId, name: string)
    ensures NamedIndex(ps, uid, name).Some? <==> HasPropertyNamed(UserProperties(ps, uid), name)
  {
    var owned := UserProperties(ps, uid);
    var k := NamedIndex(ps, uid, name);
    if k.Some? {
      assert ps[k.value] in owned;
      var j :| 0 <= j < |owned| && owned[j] == ps[k.value];
    }
    if HasPropertyNamed(owned, name) {
      var j :| 0 <= j < |owned| && owned[j].keyName == Some(name);
      assert owned[j] in ps;
      var i :| 0 <= i < |ps| && ps[i] == owned[j];
    }
  }

  /** Replacing one row keeps every other row. */
  lemma UpdateKeepsOthers(ps: seq<PropertyRow>, k: nat, x: PropertyRow)
    requires k < |ps|
    ensures forall p | p in ps && p != ps[k] :: p in ps[k := x]
  {
    forall p | p in ps && p != ps[k] ensures p in ps[k := x] {
      var i :| 0 <= i < |ps| && ps[i] == p;
      assert ps[k := x][i] == p;
    }
  }

  /** Two users holding the same ID string break the unique keyValue index. */
  lemma SharedIdStringInconsistent(d: Db, a: UserId, b: UserId, idString: string)
    requires a != b
    requires HoldsIdString(d.properties, a, None, idString) && HoldsIdString(d.properties, b, None, idString)
    ensures !Consistent(d)
  {
    var ps := d.properties;
    var i :| 0 <= i < |ps| && ps[i].parentUser == Some(a) && ps[i].keyValue == Some(idString);
    var j :| 0 <= j < |ps| && ps[j].parentUser == Some(b) && ps[j].keyValue == Some(idString);
    if i < j {
      assert !PropertiesCompatible()(ps[i], ps[j]);
    } else {
      assert !PropertiesCompatible()(ps[j], ps[i]);
    }
  }

  /** `addProperties($user, [[$name, $value]], $user, $preventOverwrite)`,
      which the User service does not define: a property of that name is
      refused when overwriting is prevented and otherwise takes the new
      value; without one, a new property is added. The schema's constraints
      are left to the flush. */
  function SetIdentifier(d: Db, uid: UserId, name: string, value: string, preventOverwrite: bool)
    : (r: Result<Db, Error>)
    ensures r.Failure? <==> preventOverwrite && HasPropertyNamed(UserProperties(d.properties, uid), name)
    ensures r.Failure? ==> r.error == DuplicatePropertyName
    ensures r.Success? ==> HoldsIdString(r.value.properties, uid, Some(name), value)
    ensures r.Success? ==>
              forall p | p in d.properties && !(p.parentUser == Some(uid) && p.keyName == Some(name)) ::
                p in r.value.properties
    ensures r.Success? ==>
              && r.value.users == d.users
              && r.value.identityRequests == d.identityRequests
              && r.value.accountRequests == d.accountRequests
  {
    NamedIndexHasProperty(d.properties, uid, name);
    match NamedIndex(d.properties, uid, name)
    case Some(k) =>
      if preventOverwrite then Failure(DuplicatePropertyName)
      else
        var ps := d.properties[k := d.properties[k].(keyValue := Some(value))];
        UpdateKeepsOthers(d.properties, k, ps[k]);
        assert ps[k].parentUser == Some(uid) && ps[k].keyName == Some(name) && ps[k].keyValue == Some(value);
        Success(d.(properties := ps))
    case None =>
      UserService.NewPropertyHeld(d, uid, name, value);
      Success(UserService.WithNewProperty(d, uid, name, value))
  }

  /** `$primaryUser->setCertificateDn($primaryUser->getId())`: the user's id,
      as a string, replaces the legacy DN. */
  function ReplaceLegacyDn(d: Db, primaryUser: User): (r: Db)
    requires primaryUser in d.users
    ensures r.properties == d.properties && r.nextPropertyId == d.nextPropertyId
    ensures r.identityRequests == d.identityRequests && r.accountRequests == d.accountRequests
    ensures UserIds(r.users) == UserIds(d.users)
    ensures primaryUser.(certificateDn := Some(NatToString(primaryUser.id))) in r.users
  {
    var users := ReplaceUser(d.users, primaryUser.(certificateDn := Some(NatToString(primaryUser.id))));
    var i :| 0 <= i < |d.users| && d.users[i] == primaryUser;
    assert users[i] == primaryUser.(certificateDn := Some(NatToString(primaryUser.id)));
    assert UserIds(users) == UserIds(d.users) by {
      forall id | id in UserIds(d.users) ensures id in UserIds(users) {
        var j :| 0 <= j < |d.users| && d.users[j].id == id;
        assert users[j].id == id;
      }
      forall id | id in UserIds(users) ensures id in UserIds(d.users) {
        var j :| 0 <= j < |users| && users[j].id == id;
        assert d.users[j].id == id;
      }
    }
    d.(users := users)
  }

  /** A row `confirmAccountLinking` may overwrite: the primary user's row of
      the secondary type, and, for a legacy account being linked, its row of
      the primary type. */
  predicate SetByLinking(request: AccountRequestRow, primaryUser: User, primaryAuthType: string,
                         secondaryAuthType: string, p: PropertyRow) {
    p.parentUser == Some(primaryUser.id)
    && (p.keyName == Some(secondaryAuthType)
        || (primaryUser.certificateDn == Some(request.primaryIdString) && primaryAuthType != secondaryAuthType
            && p.keyName == Some(primaryAuthType)))
  }

  /** The property changes of `confirmAccountLinking` (lines 290-299): the
      requester's (type, ID string) is set on the primary user, refused over
      an existing property of that type when linking; a legacy user's DN is
      replaced by its id and, when linking, the old ID string is added as a
      property of the primary type. */
  function UpdatePrimaryUser(d: Db, request: AccountRequestRow, primaryUser: User,
                             primaryAuthType: string, secondaryAuthType: string)
    : (r: Result<Db, Error>)
    requires primaryUser in d.users && primaryUser.id == request.primaryUser
    ensures var oldUser := primaryUser.certificateDn == Some(request.primaryIdString);
            var preventOverwrite := primaryAuthType != secondaryAuthType;
            && (r.Failure? <==>
                 preventOverwrite && HasPropertyNamed(UserProperties(d.properties, primaryUser.id), secondaryAuthType))
            && (r.Failure? ==> r.error == DuplicatePropertyName)
            && (r.Success? ==> HoldsIdString(r.value.properties, primaryUser.id, Some(secondaryAuthType),
                                            request.secondaryIdString))
            && (r.Success? && oldUser && preventOverwrite ==>
                  HoldsIdString(r.value.properties, primaryUser.id, Some(primaryAuthType), request.primaryIdString))
            && (r.Success? && oldUser ==>
                  primaryUser.(certificateDn := Some(NatToString(primaryUser.id))) in r.value.users)
            && (r.Success? && !oldUser ==> r.value.users == d.users)
    ensures r.Success? ==>
              forall p | p in d.properties && p.parentUser != Some(primaryUser.id) :: p in r.value.properties
    // Of the primary user's rows, only those of the types set can change.
    ensures r.Success? ==>
              forall p | p in d.properties && !SetByLinking(request, primaryUser, primaryAuthType, secondaryAuthType, p)
                :: p in r.value.properties
    ensures r.Success? ==>
              && UserIds(r.value.users) == UserIds(d.users)
              && (forall u | u in d.users && u.id != primaryUser.id :: u in r.value.users)
              && r.value.identityRequests == d.identityRequests
              && r.value.accountRequests == d.accountRequests
  {
    var uid := primaryUser.id;
    var oldUser := primaryUser.certificateDn == Some(request.primaryIdString);
    var preventOverwrite := primaryAuthType != secondaryAuthType;
    var updated := SetIdentifier(d, uid, secondaryAuthType, request.secondaryIdString, preventOverwrite);
    if updated.Failure? || !oldUser then updated
    else
      var replaced := ReplaceLegacyDn(updated.value, primaryUser);
      if !preventOverwrite then Success(replaced)
      else
        var added := SetIdentifier(replaced, uid, primaryAuthType, request.primaryIdString, false);
        HeldRowKept(replaced.properties, added.value.properties, uid, secondaryAuthType, request.secondaryIdString);
        added
  }

  /** When the requester is registered and still holds its ID string, giving
      that ID string to the primary user breaks the unique keyValue index
      until the requester's rows are deleted. */
  lemma RequesterClash(d: Db, tx: Db, request: AccountRequestRow, authType: string)
    requires request.secondaryUser.Some? && request.secondaryUser != Some(request.primaryUser)
    requires HoldsIdString(d.properties, request.secondaryUser.value, None, request.secondaryIdString)
    requires forall p | p in d.properties && p.parentUser != Some(request.primaryUser) :: p in tx.properties
    requires HoldsIdString(tx.properties, request.primaryUser, Some(authType), request.secondaryIdString)
    ensures !Consistent(tx)
  {
    var s := request.secondaryUser.value;
    var i :| 0 <= i < |d.properties| && d.properties[i].parentUser == Some(s)
             && d.properties[i].keyValue == Some(request.secondaryIdString);
    assert d.properties[i] in d.properties;
    var j :| 0 <= j < |tx.properties| && tx.properties[j] == d.properties[i];
    SharedIdStringInconsistent(tx, s, request.primaryUser, request.secondaryIdString);
  }

  /** Lines 303-308: a registered requester is removed, and with it, through
      the cascade, its properties and requests; then the request itself. */
  function RemoveRequester(d: Db, request: AccountRequestRow): (r: Db)
    requires Consistent(d)
    ensures Consistent(r)
    ensures forall q | q in r.identityRequests :: q in d.identityRequests
    ensures forall q | q in r.accountRequests :: q in d.accountRequests && q != request
    ensures request.secondaryUser.Some? ==> request.secondaryUser.value !in UserIds(r.users)
    ensures request.secondaryUser != Some(request.primaryUser) ==>
              && (forall u | u in d.users && u.id == request.primaryUser :: u in r.users)
              && (forall p | p in d.properties && p.parentUser == Some(request.primaryUser) :: p in r.properties)
  {
    var removed := if request.secondaryUser.Some? then RemoveUser(d, request.secondaryUser.value) else d;
    assert request.secondaryUser.Some? ==> removed == DropUser(d, request.secondaryUser.value);
    removed.(accountRequests := Filter(removed.accountRequests, OtherRequest(request)))
  }

  /** The transaction of `confirmAccountLinking` (lines 286-315), with the
      authentication types given by the caller, since LinkAccountRequest has
      no getters for them. Role merging is not modelled. The unit of work
      issues inserts and updates before deletions, so the schema's
      constraints are met or violated on the state before the requester and
      the request are removed; removing them keeps the constraints. */
  method ConfirmAccountLinkingInTx(d: Db, request: AccountRequestRow, primaryAuthType: string,
                                   secondaryAuthType: string)
    returns (r: Result<Db, Error>)
    requires Consistent(d) && request in d.accountRequests
    // The flush succeeds exactly when the primary user's update is allowed
    // and leaves the constraints met; the requester and the request then go.
    ensures var updated := UpdatePrimaryUser(d, request, PrimaryUserOf(d, request), primaryAuthType, secondaryAuthType);
            r.Success? <==> updated.Success? && Consistent(updated.value)
    ensures var updated := UpdatePrimaryUser(d, request, PrimaryUserOf(d, request), primaryAuthType, secondaryAuthType);
            r.Success? ==>
              updated.Success? && Consistent(updated.value) && r.value == RemoveRequester(updated.value, request)
    ensures r.Success? ==> Consistent(r.value)
    ensures r.Success? ==> forall q | q in r.value.identityRequests :: q in d.identityRequests
    ensures r.Success? ==> forall q | q in r.value.accountRequests :: q in d.accountRequests && q != request
    ensures r.Success? && request.secondaryUser.Some? ==> request.secondaryUser.value !in UserIds(r.value.users)
    ensures r.Success? && request.secondaryUser != Some(request.primaryUser) ==>
              && request.primaryUser in UserIds(r.value.users)
              && HoldsIdString(r.value.properties, request.primaryUser, Some(secondaryAuthType),
                               request.secondaryIdString)
    // A legacy primary user's DN becomes its id; when linking, the old ID
    // string becomes a property of the primary type.
    ensures var primaryUser := PrimaryUserOf(d, request);
            (r.Success? && request.secondaryUser != Some(request.primaryUser)
             && primaryUser.certificateDn == Some(request.primaryIdString)) ==>
              && FindUser(r.value.users, request.primaryUser) ==
                   Some(primaryUser.(certificateDn := Some(NatToString(primaryUser.id))))
              && (primaryAuthType != secondaryAuthType ==>
                    HoldsIdString(r.value.properties, request.primaryUser, Some(primaryAuthType),
                                  request.primaryIdString))
    // Linking never overwrites a property of the secondary type.
    ensures (primaryAuthType != secondaryAuthType
             && HasPropertyNamed(UserProperties(d.properties, request.primaryUser), secondaryAuthType))
            ==> r == Failure(DuplicatePropertyName)
    // Under the intended reading: a request made from the account itself
    // deletes the account.
    ensures r.Success? && request.secondaryUser == Some(request.primaryUser) ==>
              request.primaryUser !in UserIds(r.value.users)
    // Under the intended reading: a registered requester that still holds
    // its ID string makes the flush fail.
    ensures (request.secondaryUser.Some? && request.secondaryUser != Some(request.primaryUser)
             && HoldsIdString(d.properties, request.secondaryUser.value, None, request.secondaryIdString))
            ==> r.Failure?
  {
    var primaryUser := PrimaryUserOf(d, request);
    var oldUser := primaryUser.certificateDn == Some(request.primaryIdString);
    var updated := UpdatePrimaryUser(d, request, primaryUser, primaryAuthType, secondaryAuthType);
    if updated.Failure? {
      return updated;
    }
    var tx := updated.value;

    if request.secondaryUser.Some? && request.secondaryUser != Some(request.primaryUser)
       && HoldsIdString(d.properties, request.secondaryUser.value, None, request.secondaryIdString) {
      RequesterClash(d, tx, request, secondaryAuthType);
    }
    if !Consistent(tx) {
      return Failure(ConstraintViolation);
    }

    var primaryNow := if oldUser then primaryUser.(certificateDn := Some(NatToString(primaryUser.id))) else primaryUser;
    var done := RemoveRequester(tx, request);
    if request.secondaryUser != Some(request.primaryUser) {
      HeldRowKept(tx.properties, done.properties, request.primaryUser, secondaryAuthType, request.secondaryIdString);
      if oldUser && primaryAuthType != secondaryAuthType {
        HeldRowKept(tx.properties, done.properties, request.primaryUser, primaryAuthType, request.primaryIdString);
      }
      FindUserUnique(done.users, primaryNow);
    }
    r := Success(done);
  }

  /** What a confirmed account link keeps: every user but the primary and
      the requester; every property except the requester's and the primary
      user's rows the linking sets; every request not naming the requester,
      except the confirmed one. */
  lemma AccountLinkedFrame(d: Db, request: AccountRequestRow, primaryAuthType: string, secondaryAuthType: string)
    requires Consistent(d) && request in d.accountRequests
    requires var updated :=
               UpdatePrimaryUser(d, request, PrimaryUserOf(d, request), primaryAuthType, secondaryAuthType);
             updated.Success? && Consistent(updated.value)
    ensures var primaryUser := PrimaryUserOf(d, request);
            var updated := UpdatePrimaryUser(d, request, primaryUser, primaryAuthType, secondaryAuthType);
            var r := RemoveRequester(updated.value, request);
            && (forall u | u in d.users && u.id != request.primaryUser && Some(u.id) != request.secondaryUser ::
                  u in r.users)
            && (forall p | p in d.properties && p.parentUser != request.secondaryUser
                           && !SetByLinking(request, primaryUser, primaryAuthType, secondaryAuthType, p) ::
                  p in r.properties)
            && (forall q | q in d.accountRequests && q != request
                           && (request.secondaryUser.Some? ==> AccountRequestAvoids(request.secondaryUser.value)(q)) ::
                  q in r.accountRequests)
            && (forall q | q in d.identityRequests
                           && (request.secondaryUser.Some? ==> IdentityRequestAvoids(request.secondaryUser.value)(q)) ::
                  q in r.identityRequests)
  {
    var primaryUser := PrimaryUserOf(d, request);
    var tx := UpdatePrimaryUser(d, request, primaryUser, primaryAuthType, secondaryAuthType).value;
    if request.secondaryUser.Some? {
      var e := DropUser(tx, request.secondaryUser.value);
      assert RemoveRequester(tx, request) == e.(accountRequests := Filter(e.accountRequests, OtherRequest(request)));
    }
  }

  /** `confirmAccountLinking($code, $currentId)`: the request with the code
      is looked up, the portal check is made on its primary user, the
      signed-in ID string must be the request's secondary ID string, and the
      transaction commits or leaves the store unchanged. */
  method ConfirmAccountLinking(st: Store, cfg: Config, code: string, currentId: string,
                               primaryAuthType: string, secondaryAuthType: string)
    returns (r: Outcome<Error>)
    requires st.Valid()
    modifies st
    ensures st.Valid()
    ensures r.Fail? ==> st.Snapshot() == old(st.Snapshot())
    ensures GetLinkAccountRequestByConfirmationCode(old(st.Snapshot()), code).NoResult? ==>
              r == Fail(InvalidConfirmationCode)
    ensures GetLinkAccountRequestByConfirmationCode(old(st.Snapshot()), code).NonUnique? ==>
              r == Fail(NonUniqueResult)
    ensures var found := GetLinkAccountRequestByConfirmationCode(old(st.Snapshot()), code);
            (found.One?
             && CheckPortalIsNotReadOnlyOrUserIsAdmin(cfg, Some(PrimaryUserOf(old(st.Snapshot()), found.value))).Pass?
             && currentId != found.value.secondaryIdString) ==> r == Fail(IdStringMismatch)
    ensures r.Pass? ==>
              var found := GetLinkAccountRequestByConfirmationCode(old(st.Snapshot()), code);
              && found.One?
              && currentId == found.value.secondaryIdString
              && CheckPortalIsNotReadOnlyOrUserIsAdmin(cfg, Some(PrimaryUserOf(old(st.Snapshot()), found.value))).Pass?
              && (found.value.secondaryUser.Some? ==> found.value.secondaryUser.value !in UserIds(st.users))
              && (found.value.secondaryUser != Some(found.value.primaryUser) ==>
                    && found.value.primaryUser in UserIds(st.users)
                    && HoldsIdString(st.properties, found.value.primaryUser, Some(secondaryAuthType), currentId))
    // The code works once.
    ensures r.Pass? ==> GetLinkAccountRequestByConfirmationCode(st.Snapshot(), code).NoResult?
    ensures var d := old(st.Snapshot());
            var found := GetLinkAccountRequestByConfirmationCode(d, code);
            r.Pass? <==>
              && found.One?
              && CheckPortalIsNotReadOnlyOrUserIsAdmin(cfg, Some(PrimaryUserOf(d, found.value))).Pass?
              && currentId == found.value.secondaryIdString
              && var updated := UpdatePrimaryUser(d, found.value, PrimaryUserOf(d, found.value),
                                                  primaryAuthType, secondaryAuthType);
                 updated.Success? && Consistent(updated.value)
    ensures var d := old(st.Snapshot());
            var found := GetLinkAccountRequestByConfirmationCode(d, code);
            r.Pass? ==>
              && found.One?
              && var updated := UpdatePrimaryUser(d, found.value, PrimaryUserOf(d, found.value),
                                                  primaryAuthType, secondaryAuthType);
                 updated.Success? && Consistent(updated.value)
                 && st.Snapshot() == RemoveRequester(updated.value, found.value)
  {
    var d := st.Snapshot();
    var found := GetLinkAccountRequestByConfirmationCode(d, code);
    if found.NoResult? {
      return Fail(InvalidConfirmationCode);
    }
    if found.NonUnique? {
      return Fail(NonUniqueResult);
    }
    var request := found.value;
    var primaryUser := PrimaryUserOf(d, request);

    var portal := CheckPortalIsNotReadOnlyOrUserIsAdmin(cfg, Some(primaryUser));
    if portal.Fail? {
      return Fail(portal.error);
    }
    if currentId != request.secondaryIdString {
      return Fail(IdStringMismatch);
    }

    var tx := ConfirmAccountLinkingInTx(d, request, primaryAuthType, secondaryAuthType);
    if tx.Failure? {
      return Fail(tx.error);
    }
    st.Commit(tx.value);
    r := Pass;
  }
}
