/** The LinkIdentity service: a signed-in user asks for their current
    identifier to be linked to an existing account (or, with the same
    authentication type, for the account to be recovered); the request is
    confirmed with the code e-mailed to the account's owner. */
module LinkIdentityService {
  import opened Wrappers
  import opened Seqs
  import opened PhpStrings
  import opened Users
  import opened Errors
  import opened EntityService
  import opened UserPropertyEntity
  import opened LinkIdentityRequestEntity
  import opened Orm
  import opened UserService

  /* ---------------------------------------------------------------------- */
  /* Lookups                                                                */
  /* ---------------------------------------------------------------------- */

  function Mentions(idString: string): IdentityRequestRow -> bool {
    (q: IdentityRequestRow) => q.primaryIdString == idString || q.secondaryIdString == idString
  }

  function NotMentioning(idString: string): IdentityRequestRow -> bool {
    (q: IdentityRequestRow) => q.primaryIdString != idString && q.secondaryIdString != idString
  }

  /** `getLinkIdentityRequestByIdString`: the request naming the ID string
      as its primary or secondary ID string. */
  function GetLinkIdentityRequestByIdString(d: Db, idString: string): (r: Lookup<IdentityRequestRow>)
    ensures r.NoResult? <==> forall q | q in d.identityRequests :: NotMentioning(idString)(q)
    ensures r.One? ==> r.value in d.identityRequests && Mentions(idString)(r.value)
    ensures r.One? ==> forall q | q in d.identityRequests && Mentions(idString)(q) :: q == r.value
  {
    var found := Filter(d.identityRequests, Mentions(idString));
    assert found == [] <==> forall q | q in d.identityRequests :: NotMentioning(idString)(q) by {
      if found != [] { assert found[0] in found; }
    }
    assert |found| == 1 ==> forall q | q in found :: q == found[0];
    Single(found)
  }

  function HasCode(code: string): IdentityRequestRow -> bool {
    (q: IdentityRequestRow) => q.confirmCode == code
  }

  /** `getLinkIdentityRequestByConfirmationCode`. */
  function GetLinkIdentityRequestByConfirmationCode(d: Db, code: string): (r: Lookup<IdentityRequestRow>)
    ensures r.NoResult? <==> forall q | q in d.identityRequests :: q.confirmCode != code
    ensures r.One? ==> r.value in d.identityRequests && r.value.confirmCode == code
    ensures r.One? ==> forall q | q in d.identityRequests && q.confirmCode == code :: q == r.value
  {
    var found := Filter(d.identityRequests, HasCode(code));
    assert found == [] <==> forall q | q in d.identityRequests :: q.confirmCode != code by {
      if found != [] { assert found[0] in found; }
      if q :| q in d.identityRequests && q.confirmCode == code { assert HasCode(code)(q); }
    }
    assert |found| == 1 ==> forall q | q in found :: q == found[0];
    Single(found)
  }

  /** The primary account of a request: the user holding the ID string as a
      property of the given type, otherwise the user with that legacy
      certificate DN (`getUserFromDn`, the DN lookup). */
  function LookupPrimaryUser(d: Db, primaryIdString: string, primaryAuthType: string): (r: Result<User, Error>)
    requires Consistent(d)
    ensures r.Success? ==> r.value in d.users
    ensures r.Success? ==>
              HoldsIdString(d.properties, r.value.id, Some(primaryAuthType), primaryIdString)
              || r.value.certificateDn == Some(primaryIdString)
    ensures r.Failure? ==> r.error == PrimaryUserNotFound || r.error == NonUniqueResult
    ensures r == Failure(PrimaryUserNotFound) <==>
              GetUserByPrincipleAndType(d, primaryIdString, primaryAuthType).NoResult?
              && GetUserByCertificateDn(d, primaryIdString).NoResult?
    // Two users carrying the DN make the DN lookup throw.
    ensures r == Failure(NonUniqueResult) <==>
              !GetUserByPrincipleAndType(d, primaryIdString, primaryAuthType).One?
              && GetUserByCertificateDn(d, primaryIdString).NonUnique?
  {
    PrincipleAndTypeLookup(d, primaryIdString, primaryAuthType);
    var byProperty := GetUserByPrincipleAndType(d, primaryIdString, primaryAuthType);
    if byProperty.One? then Success(byProperty.value)
    else match GetUserByCertificateDn(d, primaryIdString)
      case One(u) => Success(u)
      case NonUnique => Failure(NonUniqueResult)
      case NoResult => Failure(PrimaryUserNotFound)
  }

  /* ---------------------------------------------------------------------- */
  /* Request type and e-mail                                                */
  /* ---------------------------------------------------------------------- */

  /** A request is a recovery when the two authentication types agree. */
  function RequestType(primaryAuthType: string, currentAuthType: string): (t: string)
    ensures t == "recover" <==> primaryAuthType == currentAuthType
    ensures t == "link" <==> primaryAuthType != currentAuthType
  {
    if primaryAuthType == currentAuthType then "recover" else "link"
  }

  /** The parts of the confirmation e-mail the model keeps: its subject, and
      whether the body warns that the requester's registered account will be
      deleted. */
  datatype Email = Email(subject: string, warnsOfDeletion: bool)

  /** `composeEmail`: the subject by request type; any other type throws. */
  function ComposeEmail(requestType: string, registered: bool): (r: Result<Email, Error>)
    ensures r.Success? <==> requestType == "link" || requestType == "recover"
    ensures r.Failure? ==> r.error == InvalidRequestType
    ensures r.Success? ==> r.value.warnsOfDeletion == registered
    ensures requestType == "link" ==> r.Success? && r.value.subject == "Validation of linking your GOCDB account"
    ensures requestType == "recover" ==> r.Success? && r.value.subject == "Validation of recovering your GOCDB account"
  {
    if requestType == "link" then Success(Email("Validation of linking your GOCDB account", registered))
    else if requestType == "recover" then Success(Email("Validation of recovering your GOCDB account", registered))
    else Failure(InvalidRequestType)
  }

  /** Every request gets an e-mail, whose subject says recovery exactly when
      the authentication types agree. */
  lemma RequestEmailComposed(primaryAuthType: string, currentAuthType: string, registered: bool)
    ensures ComposeEmail(RequestType(primaryAuthType, currentAuthType), registered).Success?
    ensures ComposeEmail(RequestType(primaryAuthType, currentAuthType), registered).value.subject ==
              if primaryAuthType == currentAuthType then "Validation of recovering your GOCDB account"
              else "Validation of linking your GOCDB account"
  {
  }

  /* ---------------------------------------------------------------------- */
  /* A new request                                                          */
  /* ---------------------------------------------------------------------- */

  /** The user signed in with `idString`, if registered (`getUserByPrinciple`). */
  function UserByPrinciple(d: Db, idString: string): (r: Option<User>)
    requires Consistent(d)
    ensures r.Some? <==> !Empty(idString) && ValueTaken(d.properties, idString)
    ensures r.Some? ==> r.value in d.users && HoldsIdString(d.properties, r.value.id, None, idString)
  {
    PrincipleLookup(d, idString);
    var found := GetUserByPrinciple(d, idString);
    if found.One? then Some(found.value) else None
  }

  function UserIdOf(u: Option<User>): Option<UserId> {
    if u.Some? then Some(u.value.id) else None
  }

  /** The unique indexes on the join columns of the two one-to-one
      associations: no other request may have the same primary user, or the
      same secondary user when there is one. */
  predicate RequestUsersTaken(qs: seq<IdentityRequestRow>, q: IdentityRequestRow) {
    exists i | 0 <= i < |qs| ::
      qs[i].primaryUser == q.primaryUser || (q.secondaryUser.Some? && qs[i].secondaryUser == q.secondaryUser)
  }

  function OtherRequest(q: IdentityRequestRow): IdentityRequestRow -> bool {
    (p: IdentityRequestRow) => p != q
  }

  /** Requests that do not mention an ID string, and one new request that
      does: the lookup by that ID string finds the new one. */
  lemma NewRequestFound(d: Db, idString: string, qs: seq<IdentityRequestRow>, q: IdentityRequestRow)
    requires q.secondaryIdString == idString
    requires d.identityRequests == Filter(qs, NotMentioning(idString)) + [q]
    ensures GetLinkIdentityRequestByIdString(d, idString) == One(q)
  {
    var kept := Filter(qs, NotMentioning(idString));
    FilterConcat(kept, [q], Mentions(idString));
    FilterNone(kept, Mentions(idString));
    assert [q][1..] == [];
    assert Filter(d.identityRequests, Mentions(idString)) == [q];
  }

  /** Removing requests keeps the constraints and the absence of self links. */
  lemma WithFewerRequestsValid(d: Db, qs: seq<IdentityRequestRow>)
    requires Consistent(d) && NoSelfLinks(d.identityRequests)
    requires forall q | q in qs :: q in d.identityRequests
    ensures Consistent(d.(identityRequests := qs)) && NoSelfLinks(qs)
  {
  }

  /** Lines 49-61 of `newLinkIdentityRequest`: the request already
      mentioning the current ID string, if any, is removed and committed. */
  method RemovePreviousRequest(st: Store, currentIdString: string) returns (r: Outcome<Error>)
    requires st.Valid()
    modifies st
    ensures st.Valid()
    ensures st.users == old(st.users) && st.properties == old(st.properties)
    ensures st.accountRequests == old(st.accountRequests) && st.nextPropertyId == old(st.nextPropertyId)
    ensures r.Pass? <==> !GetLinkIdentityRequestByIdString(old(st.Snapshot()), currentIdString).NonUnique?
    ensures r.Fail? ==> r.error == NonUniqueResult && st.identityRequests == old(st.identityRequests)
    ensures r.Pass? ==> st.identityRequests == Filter(old(st.identityRequests), NotMentioning(currentIdString))
  {
    var d := st.Snapshot();
    var previousRequest := GetLinkIdentityRequestByIdString(d, currentIdString);
    if previousRequest.NonUnique? {
      return Fail(NonUniqueResult);
    }
    if previousRequest.One? {
      var remaining := Filter(d.identityRequests, OtherRequest(previousRequest.value));
      forall i | 0 <= i < |d.identityRequests|
        ensures OtherRequest(previousRequest.value)(d.identityRequests[i]) ==
                NotMentioning(currentIdString)(d.identityRequests[i])
      {
        assert d.identityRequests[i] in d.identityRequests;
      }
      FilterSame(d.identityRequests, OtherRequest(previousRequest.value), NotMentioning(currentIdString));
      WithFewerRequestsValid(d, remaining);
      st.Commit(d.(identityRequests := remaining));
    } else {
      FilterAll(d.identityRequests, NotMentioning(currentIdString));
    }
    r := Pass;
  }

  /** Lines 83-98 of `newLinkIdentityRequest`: the new request is flushed,
      where the unique join columns may reject it, and committed once the
      confirmation e-mail is accepted for delivery. */
  method PersistRequest(st: Store, linkIdentityReq: LinkIdentityRequest, mailDelivered: bool)
    returns (r: Outcome<Error>)
    requires st.Valid()
    requires IdentityRequestStored(st.Snapshot(), linkIdentityReq.Row())
    requires linkIdentityReq.secondaryUser != Some(linkIdentityReq.primaryUser)
    modifies st
    ensures st.Valid()
    ensures st.users == old(st.users) && st.properties == old(st.properties)
    ensures st.accountRequests == old(st.accountRequests) && st.nextPropertyId == old(st.nextPropertyId)
    ensures r.Pass? <==> !RequestUsersTaken(old(st.identityRequests), linkIdentityReq.Row()) && mailDelivered
    ensures r.Pass? ==> st.identityRequests == old(st.identityRequests) + [linkIdentityReq.Row()]
    ensures r.Fail? ==> st.identityRequests == old(st.identityRequests)
    ensures r.Fail? ==> r.error == ConstraintViolation || r.error == MailNotSent
  {
    var row := linkIdentityReq.Row();
    if RequestUsersTaken(st.identityRequests, row) {
      return Fail(ConstraintViolation);
    }
    if !mailDelivered {
      return Fail(MailNotSent);
    }
    st.Commit(st.Snapshot().(identityRequests := st.identityRequests + [row]));
    r := Pass;
  }

  /** The checks of `newLinkIdentityRequest` all pass, and the flush of the
      new request would meet the unique indexes on its user columns. */
  predicate RequestFileable(d: Db, cfg: Config, currentIdString: string, givenEmail: string,
                            primaryIdString: string, primaryAuthType: string, currentAuthType: string,
                            code: string)
    requires Consistent(d)
  {
    var primary := LookupPrimaryUser(d, primaryIdString, primaryAuthType);
    var current := UserByPrinciple(d, currentIdString);
    && primary.Success?
    && SameIgnoringCase(primary.value.email, givenEmail)
    && UserIdOf(current) != Some(primary.value.id)
    && CheckPortalIsNotReadOnlyOrUserIsAdmin(cfg, current).Pass?
    && !GetLinkIdentityRequestByIdString(d, currentIdString).NonUnique?
    && !RequestUsersTaken(Filter(d.identityRequests, NotMentioning(currentIdString)),
                          IdentityRequestRow(primary.value.id, UserIdOf(current), code, primaryIdString,
                                             currentIdString, primaryAuthType, currentAuthType))
  }

  /** `newLinkIdentityRequest`. The previous request mentioning the current
      ID string is removed in a transaction of its own; the new request is
      persisted in a second one, which the failure to send the e-mail rolls
      back. `code` is the generated confirmation code and `mailDelivered`
      what `mail()` returned. */
  method NewLinkIdentityRequest(st: Store, cfg: Config, currentIdString: string, givenEmail: string,
                                primaryIdString: string, primaryAuthType: string, currentAuthType: string,
                                code: string, mailDelivered: bool)
    returns (r: Outcome<Error>)
    requires st.Valid()
    modifies st
    ensures st.Valid()
    ensures st.users == old(st.users) && st.properties == old(st.properties)
    ensures st.accountRequests == old(st.accountRequests) && st.nextPropertyId == old(st.nextPropertyId)
    ensures var primary := LookupPrimaryUser(old(st.Snapshot()), primaryIdString, primaryAuthType);
            primary.Failure? ==> r == Fail(primary.error) && st.identityRequests == old(st.identityRequests)
    ensures var primary := LookupPrimaryUser(old(st.Snapshot()), primaryIdString, primaryAuthType);
            primary.Success? && !SameIgnoringCase(primary.value.email, givenEmail) ==>
              r == Fail(EmailMismatch) && st.identityRequests == old(st.identityRequests)
    ensures var primary := LookupPrimaryUser(old(st.Snapshot()), primaryIdString, primaryAuthType);
            var current := UserByPrinciple(old(st.Snapshot()), currentIdString);
            primary.Success? && SameIgnoringCase(primary.value.email, givenEmail)
            && current.Some? && current.value.id == primary.value.id ==>
              r == Fail(AlreadyAssociated) && st.identityRequests == old(st.identityRequests)
    ensures r.Fail? ==>
              st.identityRequests == old(st.identityRequests)
              || st.identityRequests == Filter(old(st.identityRequests), NotMentioning(currentIdString))
    ensures r.Pass? ==>
              var primary := LookupPrimaryUser(old(st.Snapshot()), primaryIdString, primaryAuthType);
              var current := UserByPrinciple(old(st.Snapshot()), currentIdString);
              var row := IdentityRequestRow(primary.value.id, UserIdOf(current), code, primaryIdString,
                                            currentIdString, primaryAuthType, currentAuthType);
              && primary.Success?
              && SameIgnoringCase(primary.value.email, givenEmail)
              && UserIdOf(current) != Some(primary.value.id)
              && CheckPortalIsNotReadOnlyOrUserIsAdmin(cfg, current).Pass?
              && mailDelivered
              && st.identityRequests == Filter(old(st.identityRequests), NotMentioning(currentIdString)) + [row]
              && GetLinkIdentityRequestByIdString(st.Snapshot(), currentIdString) == One(row)
    // The request is filed exactly when every check passes, the earlier
    // request can be removed, the new request's user columns are free and
    // the e-mail is sent.
    ensures r.Pass? <==>
              RequestFileable(old(st.Snapshot()), cfg, currentIdString, givenEmail, primaryIdString,
                              primaryAuthType, currentAuthType, code)
              && mailDelivered
  {
    var d := st.Snapshot();
    var primary := LookupPrimaryUser(d, primaryIdString, primaryAuthType);
    if primary.Failure? {
      return Fail(primary.error);
    }
    var primaryUser := primary.value;
    if !SameIgnoringCase(primaryUser.email, givenEmail) {
      return Fail(EmailMismatch);
    }
    var currentUser := UserByPrinciple(d, currentIdString);
    if currentUser.Some? && currentUser.value.id == primaryUser.id {
      return Fail(AlreadyAssociated);
    }
    var portal := CheckPortalIsNotReadOnlyOrUserIsAdmin(cfg, currentUser);
    if portal.Fail? {
      return Fail(portal.error);
    }

    var row := IdentityRequestRow(primaryUser.id, UserIdOf(currentUser), code, primaryIdString,
                                  currentIdString, primaryAuthType, currentAuthType);
    assert IdentityRequestStored(d, row);
    r := FileRequest(st, row, mailDelivered);
  }

  /** Lines 49-98 of `newLinkIdentityRequest` once the checks pass: the
      previous request is removed, the new one built through its setters,
      the e-mail composed, and the request persisted. */
  method FileRequest(st: Store, row: IdentityRequestRow, mailDelivered: bool) returns (r: Outcome<Error>)
    requires st.Valid() && IdentityRequestStored(st.Snapshot(), row)
    requires row.secondaryUser != Some(row.primaryUser)
    modifies st
    ensures st.Valid()
    ensures st.users == old(st.users) && st.properties == old(st.properties)
    ensures st.accountRequests == old(st.accountRequests) && st.nextPropertyId == old(st.nextPropertyId)
    ensures r.Fail? ==>
              st.identityRequests == old(st.identityRequests)
              || st.identityRequests == Filter(old(st.identityRequests), NotMentioning(row.secondaryIdString))
    ensures r.Pass? ==>
              && mailDelivered
              && st.identityRequests == Filter(old(st.identityRequests), NotMentioning(row.secondaryIdString)) + [row]
              && GetLinkIdentityRequestByIdString(st.Snapshot(), row.secondaryIdString) == One(row)
    ensures r.Pass? <==>
              && !GetLinkIdentityRequestByIdString(old(st.Snapshot()), row.secondaryIdString).NonUnique?
              && !RequestUsersTaken(Filter(old(st.identityRequests), NotMentioning(row.secondaryIdString)), row)
              && mailDelivered
  {
    var removed := RemovePreviousRequest(st, row.secondaryIdString);
    if removed.Fail? {
      return removed;
    }

    var linkIdentityReq := new LinkIdentityRequest(row.primaryUser, row.secondaryUser, row.confirmCode,
                                                   row.primaryIdString, row.secondaryIdString,
                                                   row.primaryAuthType, row.secondaryAuthType);
    // The e-mail `sendConfirmationEmail` composes; `mailDelivered` is
    // whether it was accepted for delivery.
    var email := ComposeEmail(RequestType(row.primaryAuthType, row.secondaryAuthType), row.secondaryUser.Some?);
    r := PersistRequest(st, linkIdentityReq, mailDelivered);
    if r.Pass? {
      NewRequestFound(st.Snapshot(), row.secondaryIdString, old(st.identityRequests), row);
    }
  }

  /* ---------------------------------------------------------------------- */
  /* Confirmation                                                           */
  /* ---------------------------------------------------------------------- */

  /** The primary user of a stored request (its foreign key). */
  function PrimaryUserOf(d: Db, q: IdentityRequestRow): (u: User)
    requires Consistent(d) && q in d.identityRequests
    ensures u in d.users && u.id == q.primaryUser
  {
    assert IdentityRequestStored(d, q);
    FindUser(d.users, q.primaryUser).value
  }

  /** Deleting a registered requester through `deleteUser($secondaryUser,
      $secondaryUser)` passes the portal check on the requester, and so
      needs a portal that is not read-only or a requester who is an
      administrator; the requester may always edit itself. */
  predicate RequesterRemovable(d: Db, cfg: Config, request: IdentityRequestRow) {
    request.secondaryUser.Some? ==>
      CheckPortalIsNotReadOnlyOrUserIsAdmin(cfg, FindUser(d.users, request.secondaryUser.value)).Pass?
  }

  /** The state once a registered requester's account, with what the
      cascade takes, and the confirmed request are gone. */
  function WithoutRequester(d: Db, request: IdentityRequestRow): Db {
    var e := if request.secondaryUser.Some? then DropUser(d, request.secondaryUser.value) else d;
    e.(identityRequests := Filter(e.identityRequests, OtherRequest(request)))
  }

  /** Lines 306-309 of `confirmIdentityLinking`: a registered requester's
      account is deleted, with the requester as the deleting user. */
  function DeleteSecondaryUser(d: Db, cfg: Config, request: IdentityRequestRow): (r: Result<Db, Error>)
    requires Consistent(d) && request.secondaryUser != Some(request.primaryUser)
    requires request.primaryUser in UserIds(d.users)
    requires request.secondaryUser.Some? ==> request.secondaryUser.value in UserIds(d.users)
    ensures r.Success? <==> RequesterRemovable(d, cfg, request)
    ensures r.Success? ==> Consistent(r.value) && request.primaryUser in UserIds(r.value.users)
    ensures r.Success? && request.secondaryUser.Some? ==>
              UserIds(r.value.users) == UserIds(d.users) - {request.secondaryUser.value}
    ensures r.Success? ==>
              forall v: UserId | Some(v) != request.secondaryUser ::
                UserProperties(r.value.properties, v) == UserProperties(d.properties, v)
    ensures r.Success? ==> forall q | q in r.value.identityRequests :: q in d.identityRequests
    ensures request.secondaryUser.None? ==> r == Success(d)
  {
    if request.secondaryUser.None? then Success(d)
    else
      var secondaryUser := FindUser(d.users, request.secondaryUser.value).value;
      DeleteUserInTx(d, cfg, secondaryUser, Some(secondaryUser))
  }

  /** `$em->remove($request)`: the confirmed request is gone (it may already
      have gone with the deleted requester, through the cascade). */
  function WithoutRequest(d: Db, request: IdentityRequestRow): (r: Db)
    requires Consistent(d) && NoSelfLinks(d.identityRequests)
    ensures Consistent(r) && NoSelfLinks(r.identityRequests)
    ensures r.users == d.users && r.properties == d.properties && r.nextPropertyId == d.nextPropertyId
    ensures forall q | q in r.identityRequests :: q in d.identityRequests && q != request
  {
    d.(identityRequests := Filter(d.identityRequests, OtherRequest(request)))
  }

  /** The `$oldUser && $linking` case: the request links another type to an
      account whose certificate DN is the primary ID string. */
  predicate LinksLegacyAccount(d: Db, request: IdentityRequestRow)
    requires Consistent(d) && request in d.identityRequests
  {
    request.primaryAuthType != request.secondaryAuthType
    && PrimaryUserOf(d, request).certificateDn == Some(request.primaryIdString)
  }

  /** The state once a legacy account's DN is added as a property of the
      primary type; `d` itself when the account is not a legacy one. */
  function WithLegacyDn(d: Db, request: IdentityRequestRow): Db
    requires Consistent(d) && request in d.identityRequests
  {
    if LinksLegacyAccount(d, request)
    then WithNewProperty(d, request.primaryUser, Trim(request.primaryAuthType), Trim(request.primaryIdString))
    else d
  }

  /** Adding a legacy account's DN succeeds (there is nothing to add for
      other accounts). */
  predicate LegacyDnAddable(d: Db, cfg: Config, request: IdentityRequestRow)
    requires Consistent(d) && request in d.identityRequests
  {
    LinksLegacyAccount(d, request) ==>
      AddAllowed(d, cfg, request.primaryUser, Trim(request.primaryAuthType), Trim(request.primaryIdString))
  }

  /** The state a confirmed identity link commits: the legacy DN added, the
      requester and the request gone, and the requester's (type, ID string)
      added to the primary user. */
  function IdentityLinked(d: Db, request: IdentityRequestRow): Db
    requires Consistent(d) && request in d.identityRequests
  {
    WithNewProperty(WithoutRequester(WithLegacyDn(d, request), request), request.primaryUser,
                    Trim(request.secondaryAuthType), Trim(request.secondaryIdString))
  }

  /** The rows the legacy DN adds to the primary user's properties. */
  function LegacyDnRows(d: Db, request: IdentityRequestRow): seq<PropertyRow>
    requires Consistent(d) && request in d.identityRequests
  {
    if LinksLegacyAccount(d, request)
    then [NewPropertyRow(d, request.primaryUser, Trim(request.primaryAuthType), Trim(request.primaryIdString))]
    else []
  }

  /** What a confirmed identity link changes and what it keeps: only the
      requester's account goes; every other user keeps its properties, and
      the primary user gains the legacy DN (if any) and then the requester's
      ID string; the requests kept are those not naming the requester, less
      the confirmed one. */
  lemma IdentityLinkedFrame(d: Db, request: IdentityRequestRow)
    requires Consistent(d) && NoSelfLinks(d.identityRequests) && request in d.identityRequests
    ensures var r := IdentityLinked(d, request);
            forall u :: u in r.users <==> u in d.users && Some(u.id) != request.secondaryUser
    ensures var r := IdentityLinked(d, request);
            forall v: UserId | v != request.primaryUser && Some(v) != request.secondaryUser ::
              UserProperties(r.properties, v) == UserProperties(d.properties, v)
    ensures var r := IdentityLinked(d, request);
            var rest := WithoutRequester(WithLegacyDn(d, request), request);
            UserProperties(r.properties, request.primaryUser) ==
              UserProperties(d.properties, request.primaryUser) + LegacyDnRows(d, request)
              + [NewPropertyRow(rest, request.primaryUser, Trim(request.secondaryAuthType),
                                Trim(request.secondaryIdString))]
    ensures var r := IdentityLinked(d, request);
            forall q :: q in r.identityRequests <==>
              q in d.identityRequests && q != request
              && (request.secondaryUser.Some? ==> IdentityRequestAvoids(request.secondaryUser.value)(q))
    ensures var r := IdentityLinked(d, request);
            forall q :: q in r.accountRequests <==>
              q in d.accountRequests
              && (request.secondaryUser.Some? ==> AccountRequestAvoids(request.secondaryUser.value)(q))
  {
    var uid := request.primaryUser;
    var legacy := WithLegacyDn(d, request);
    var rest := WithoutRequester(legacy, request);
    assert request.secondaryUser != Some(uid);
    LegacyDnOwners(d, request);
    WithoutRequesterOwners(legacy, request);
    AddKeepsOwners(rest, uid, Trim(request.secondaryAuthType), Trim(request.secondaryIdString));
  }

  /** Adding the legacy DN touches only the primary user's properties. */
  lemma LegacyDnOwners(d: Db, request: IdentityRequestRow)
    requires Consistent(d) && request in d.identityRequests
    ensures UserProperties(WithLegacyDn(d, request).properties, request.primaryUser) ==
              UserProperties(d.properties, request.primaryUser) + LegacyDnRows(d, request)
    ensures forall v: UserId | v != request.primaryUser ::
              UserProperties(WithLegacyDn(d, request).properties, v) == UserProperties(d.properties, v)
  {
    if LinksLegacyAccount(d, request) {
      AddKeepsOwners(d, request.primaryUser, Trim(request.primaryAuthType), Trim(request.primaryIdString));
    }
  }

  /** Removing the requester touches only the requester's properties. */
  lemma WithoutRequesterOwners(d: Db, request: IdentityRequestRow)
    ensures forall v: UserId | Some(v) != request.secondaryUser ::
              UserProperties(WithoutRequester(d, request).properties, v) == UserProperties(d.properties, v)
  {
    if request.secondaryUser.Some? {
      DropUserOwners(d, request.secondaryUser.value, DropUser(d, request.secondaryUser.value));
    }
  }

  /** When the transaction of `confirmIdentityLinking` succeeds: the portal
      check on the primary user passes, a legacy DN can be added, the
      requester can be deleted, and the requester's (type, ID string) can
      then be added to the primary user. */
  predicate IdentityLinkable(d: Db, cfg: Config, request: IdentityRequestRow)
    requires Consistent(d) && request in d.identityRequests
  {
    && CheckPortalIsNotReadOnlyOrUserIsAdmin(cfg, Some(PrimaryUserOf(d, request))).Pass?
    && LegacyDnAddable(d, cfg, request)
    && RequesterRemovable(d, cfg, request)
    && AddAllowed(WithoutRequester(WithLegacyDn(d, request), request), cfg, request.primaryUser,
                  Trim(request.secondaryAuthType), Trim(request.secondaryIdString))
  }

  /** Linking to a legacy account never succeeds: the account's own DN,
      the ID string to add, counts as registered. */
  lemma LegacyLinkNotLinkable(d: Db, cfg: Config, request: IdentityRequestRow)
    requires Consistent(d) && request in d.identityRequests
    ensures (LinksLegacyAccount(d, request)
             && Trim(request.primaryIdString) == request.primaryIdString && !Empty(request.primaryIdString))
            ==> !IdentityLinkable(d, cfg, request)
  {
    if LinksLegacyAccount(d, request) {
      assert PrimaryUserOf(d, request) in d.users;
    }
  }

  /** Recovery never succeeds when the primary user already has a property
      of the type: the requester's removal leaves the primary's properties
      as they were. */
  lemma RecoveryOverExistingTypeNotLinkable(d: Db, cfg: Config, request: IdentityRequestRow)
    requires Consistent(d) && NoSelfLinks(d.identityRequests) && request in d.identityRequests
    ensures (request.primaryAuthType == request.secondaryAuthType
             && HasPropertyNamed(UserProperties(d.properties, request.primaryUser), Trim(request.secondaryAuthType)))
            ==> !IdentityLinkable(d, cfg, request)
  {
    assert request.secondaryUser != Some(request.primaryUser);
    WithoutRequesterOwners(d, request);
  }

  /** The transaction of `confirmIdentityLinking` (lines 297-318), as
      written: when linking to an account known only by its certificate
      DN, that DN is first added as a property of the primary type; a
      registered requester's account is deleted; the request is removed;
      then the requester's (type, ID string) is added to the primary user,
      through `addUserProperty`, which ignores the fourth argument and so
      never overwrites. */
  method ConfirmIdentityLinkingInTx(d: Db, cfg: Config, request: IdentityRequestRow) returns (r: Result<Db, Error>)
    requires Consistent(d) && NoSelfLinks(d.identityRequests) && request in d.identityRequests
    ensures r.Success? <==> IdentityLinkable(d, cfg, request)
    ensures r.Success? ==> r.value == IdentityLinked(d, request)
    ensures r.Success? ==> Consistent(r.value) && NoSelfLinks(r.value.identityRequests)
    ensures r.Success? ==> forall q | q in r.value.identityRequests :: q in d.identityRequests && q != request
    ensures r.Success? ==> request.primaryUser in UserIds(r.value.users)
    ensures r.Success? && request.secondaryUser.Some? ==> request.secondaryUser.value !in UserIds(r.value.users)
    ensures r.Success? ==>
              HoldsIdString(r.value.properties, request.primaryUser, Some(Trim(request.secondaryAuthType)),
                            Trim(request.secondaryIdString))
    // Linking to a legacy account fails: its own DN counts as registered.
    ensures (LinksLegacyAccount(d, request)
             && Trim(request.primaryIdString) == request.primaryIdString && !Empty(request.primaryIdString))
            ==> r.Failure?
    // Recovery fails when the primary user already has a property of that type.
    ensures (request.primaryAuthType == request.secondaryAuthType
             && HasPropertyNamed(UserProperties(d.properties, request.primaryUser), Trim(request.secondaryAuthType)))
            ==> r.Failure?
  {
    LegacyLinkNotLinkable(d, cfg, request);
    RecoveryOverExistingTypeNotLinkable(d, cfg, request);
    var primaryUser := PrimaryUserOf(d, request);
    var tx := AddLegacyDn(d, cfg, request);
    if tx.Failure? {
      return tx;
    }
    r := LinkRequester(tx.value, cfg, request);
    if r.Success? {
      assert PrimaryUserOf(tx.value, request) == primaryUser;
    }
  }

  /** Lines 289-302 of `confirmIdentityLinking`: the DN of a legacy primary
      account is added as a property of the primary type, with the primary
      user as the editing user. */
  method AddLegacyDn(d: Db, cfg: Config, request: IdentityRequestRow) returns (r: Result<Db, Error>)
    requires Consistent(d) && NoSelfLinks(d.identityRequests) && request in d.identityRequests
    ensures !LinksLegacyAccount(d, request) ==> r == Success(d)
    ensures LinksLegacyAccount(d, request) ==>
              (r.Success? <==>
                 CheckPortalIsNotReadOnlyOrUserIsAdmin(cfg, Some(PrimaryUserOf(d, request))).Pass?
                 && LegacyDnAddable(d, cfg, request))
    ensures r.Success? ==>
              && r.value == WithLegacyDn(d, request)
              && Consistent(r.value) && NoSelfLinks(r.value.identityRequests)
              && request in r.value.identityRequests
              && r.value.users == d.users
  {
    var primaryUser := PrimaryUserOf(d, request);
    var linking := request.primaryAuthType != request.secondaryAuthType;
    var oldUser := primaryUser.certificateDn == Some(request.primaryIdString);
    if oldUser && linking {
      r := AddUserPropertyInTx(d, cfg, primaryUser,
                               PropertyPair(request.primaryAuthType, request.primaryIdString), primaryUser);
    } else {
      r := Success(d);
    }
  }

  /** Lines 305-316 of `confirmIdentityLinking`: a registered requester is
      deleted, the request removed, and the requester's (type, ID string)
      added to the primary user, with the primary user as the editing
      user. */
  method LinkRequester(d: Db, cfg: Config, request: IdentityRequestRow) returns (r: Result<Db, Error>)
    requires Consistent(d) && NoSelfLinks(d.identityRequests) && request in d.identityRequests
    ensures r.Success? <==>
              && CheckPortalIsNotReadOnlyOrUserIsAdmin(cfg, Some(PrimaryUserOf(d, request))).Pass?
              && RequesterRemovable(d, cfg, request)
              && AddAllowed(WithoutRequester(d, request), cfg, request.primaryUser,
                            Trim(request.secondaryAuthType), Trim(request.secondaryIdString))
    ensures r.Success? ==>
              && r.value == WithNewProperty(WithoutRequester(d, request), request.primaryUser,
                                            Trim(request.secondaryAuthType), Trim(request.secondaryIdString))
              && Consistent(r.value) && NoSelfLinks(r.value.identityRequests)
              && (forall q | q in r.value.identityRequests :: q in d.identityRequests && q != request)
              && request.primaryUser in UserIds(r.value.users)
              && (request.secondaryUser.Some? ==> request.secondaryUser.value !in UserIds(r.value.users))
              && HoldsIdString(r.value.properties, request.primaryUser, Some(Trim(request.secondaryAuthType)),
                               Trim(request.secondaryIdString))
    ensures r.Success? ==>
              forall p | p in d.properties && p.parentUser != request.secondaryUser :: p in r.value.properties
  {
    assert IdentityRequestStored(d, request);
    var deleted := DeleteSecondaryUser(d, cfg, request);
    if deleted.Failure? {
      return Failure(deleted.error);
    }
    var tx := WithoutRequest(deleted.value, request);
    assert tx == WithoutRequester(d, request);

    var primaryNow := FindUser(tx.users, request.primaryUser).value;
    PrimaryUserKept(d, request, tx.users, primaryNow);
    var propArr := PropertyPair(request.secondaryAuthType, request.secondaryIdString);
    r := AddUserPropertyInTx(tx, cfg, primaryNow, propArr, primaryNow);
    if r.Success? {
      NewPropertyHeld(tx, primaryNow.id, Trim(propArr.keyName), Trim(propArr.keyValue));
    }
  }

  /** Adding a legacy account's DN succeeds once the DN has been cleared
      (there is nothing to add for other accounts). */
  predicate LegacyDnAddableCorrected(d: Db, cfg: Config, request: IdentityRequestRow)
    requires Consistent(d) && request in d.identityRequests
  {
    LinksLegacyAccount(d, request) ==>
      AddAllowed(ClearedDn(d, PrimaryUserOf(d, request)), cfg, request.primaryUser,
                 Trim(request.primaryAuthType), Trim(request.primaryIdString))
  }

  /** The state once a legacy account's DN is moved from the certificate DN
      into a property of the primary type; `d` itself for other accounts. */
  function WithLegacyDnCorrected(d: Db, request: IdentityRequestRow): Db
    requires Consistent(d) && request in d.identityRequests
  {
    if LinksLegacyAccount(d, request)
    then WithNewProperty(ClearedDn(d, PrimaryUserOf(d, request)), request.primaryUser,
                         Trim(request.primaryAuthType), Trim(request.primaryIdString))
    else d
  }

  /** When the corrected transaction succeeds: as `IdentityLinkable`, with
      the legacy DN moved rather than added beside itself. */
  predicate IdentityLinkableCorrected(d: Db, cfg: Config, request: IdentityRequestRow)
    requires Consistent(d) && request in d.identityRequests
  {
    && CheckPortalIsNotReadOnlyOrUserIsAdmin(cfg, Some(PrimaryUserOf(d, request))).Pass?
    && LegacyDnAddableCorrected(d, cfg, request)
    && RequesterRemovable(d, cfg, request)
    && AddAllowed(WithoutRequester(WithLegacyDnCorrected(d, request), request), cfg, request.primaryUser,
                  Trim(request.secondaryAuthType), Trim(request.secondaryIdString))
  }

  /** The state the corrected transaction commits. */
  function IdentityLinkedCorrected(d: Db, request: IdentityRequestRow): Db
    requires Consistent(d) && request in d.identityRequests
  {
    WithNewProperty(WithoutRequester(WithLegacyDnCorrected(d, request), request), request.primaryUser,
                    Trim(request.secondaryAuthType), Trim(request.secondaryIdString))
  }

  /** Lines 289-302 as evidently intended: the legacy DN is cleared first,
      as `migrateUserCredentials` does, so that adding it as a property of
      the primary type is not refused as already registered. */
  method AddLegacyDnCorrected(d: Db, cfg: Config, request: IdentityRequestRow) returns (r: Result<Db, Error>)
    requires Consistent(d) && NoSelfLinks(d.identityRequests) && request in d.identityRequests
    ensures !LinksLegacyAccount(d, request) ==> r == Success(d)
    ensures LinksLegacyAccount(d, request) ==>
              (r.Success? <==>
                 CheckPortalIsNotReadOnlyOrUserIsAdmin(cfg, Some(PrimaryUserOf(d, request))).Pass?
                 && LegacyDnAddableCorrected(d, cfg, request))
    ensures r.Success? ==>
              && r.value == WithLegacyDnCorrected(d, request)
              && Consistent(r.value) && r.value.identityRequests == d.identityRequests
    ensures r.Success? && LinksLegacyAccount(d, request) ==>
              HoldsIdString(r.value.properties, request.primaryUser, Some(Trim(request.primaryAuthType)),
                            Trim(request.primaryIdString))
  {
    if LinksLegacyAccount(d, request) {
      var primaryUser := PrimaryUserOf(d, request);
      var portal := CheckPortalIsNotReadOnlyOrUserIsAdmin(cfg, Some(primaryUser));
      if portal.Fail? {
        return Failure(portal.error);
      }
      var pair := PropertyPair(request.primaryAuthType, request.primaryIdString);
      r := MigrateInTx(d, cfg, primaryUser, pair);
      if r.Success? {
        NewPropertyHeld(ClearedDn(d, primaryUser), primaryUser.id, Trim(pair.keyName), Trim(pair.keyValue));
      }
    } else {
      r := Success(d);
    }
  }

  /** Moving the legacy DN changes no user but the primary, and the primary
      only in its DN: the later portal check and the requester's deletion
      see the same users as before. */
  lemma LegacyDnCorrectedUsers(d: Db, cfg: Config, request: IdentityRequestRow)
    requires Consistent(d) && NoSelfLinks(d.identityRequests) && request in d.identityRequests
    requires Consistent(WithLegacyDnCorrected(d, request))
    ensures request in WithLegacyDnCorrected(d, request).identityRequests
    ensures PrimaryUserOf(WithLegacyDnCorrected(d, request), request).isAdmin == PrimaryUserOf(d, request).isAdmin
    ensures RequesterRemovable(WithLegacyDnCorrected(d, request), cfg, request) == RequesterRemovable(d, cfg, request)
  {
    var l := WithLegacyDnCorrected(d, request);
    assert request.secondaryUser != Some(request.primaryUser);
    if LinksLegacyAccount(d, request) {
      var primaryUser := PrimaryUserOf(d, request);
      ClearedDnFinds(d, primaryUser, request.primaryUser);
      if request.secondaryUser.Some? {
        ClearedDnFinds(d, primaryUser, request.secondaryUser.value);
      }
    }
  }

  /** The transaction of `confirmIdentityLinking` with the legacy step
      corrected: it succeeds exactly when `IdentityLinkableCorrected` holds,
      and a confirmed link to a legacy account leaves the primary user
      holding both its old DN, as a property of the primary type, and the
      requester's identifier. */
  method ConfirmIdentityLinkingInTxCorrected(d: Db, cfg: Config, request: IdentityRequestRow)
    returns (r: Result<Db, Error>)
    requires Consistent(d) && NoSelfLinks(d.identityRequests) && request in d.identityRequests
    ensures r.Success? <==> IdentityLinkableCorrected(d, cfg, request)
    ensures r.Success? ==> r.value == IdentityLinkedCorrected(d, request)
    ensures r.Success? ==> Consistent(r.value) && NoSelfLinks(r.value.identityRequests)
    ensures r.Success? ==> forall q | q in r.value.identityRequests :: q in d.identityRequests && q != request
    ensures r.Success? && request.secondaryUser.Some? ==> request.secondaryUser.value !in UserIds(r.value.users)
    ensures r.Success? ==>
              HoldsIdString(r.value.properties, request.primaryUser, Some(Trim(request.secondaryAuthType)),
                            Trim(request.secondaryIdString))
    ensures r.Success? && LinksLegacyAccount(d, request) ==>
              HoldsIdString(r.value.properties, request.primaryUser, Some(Trim(request.primaryAuthType)),
                            Trim(request.primaryIdString))
  {
    var tx := AddLegacyDnCorrected(d, cfg, request);
    if tx.Failure? {
      return tx;
    }
    LegacyDnCorrectedUsers(d, cfg, request);
    assert request.secondaryUser != Some(request.primaryUser);
    r := LinkRequester(tx.value, cfg, request);
    if r.Success? && LinksLegacyAccount(d, request) {
      HeldRowKept(tx.value.properties, r.value.properties, request.primaryUser, Trim(request.primaryAuthType),
                  Trim(request.primaryIdString));
    }
  }

  /** A legacy DN that only its own account carries is refused by the step
      as written, and accepted once the DN is cleared first. */
  lemma LegacyLinkCorrectedAddable(d: Db, cfg: Config, request: IdentityRequestRow)
    requires Consistent(d) && request in d.identityRequests && LinksLegacyAccount(d, request)
    requires Trim(request.primaryIdString) == request.primaryIdString && !Empty(request.primaryIdString)
    requires forall u | u in d.users && u.id != request.primaryUser :: u.certificateDn != Some(request.primaryIdString)
    requires !ValueTaken(d.properties, request.primaryIdString)
    requires Trim(request.primaryAuthType) in AuthTypes(cfg.authTokenNames, false)
    requires !HasPropertyNamed(UserProperties(d.properties, request.primaryUser), Trim(request.primaryAuthType))
    requires |UserProperties(d.properties, request.primaryUser)| + 1 <= cfg.extensionsLimit
    ensures !AddAllowed(d, cfg, request.primaryUser, Trim(request.primaryAuthType), request.primaryIdString)
    ensures AddAllowed(ClearedDn(d, PrimaryUserOf(d, request)), cfg, request.primaryUser,
                       Trim(request.primaryAuthType), request.primaryIdString)
    ensures !LegacyDnAddable(d, cfg, request) && LegacyDnAddableCorrected(d, cfg, request)
  {
    var primaryUser := PrimaryUserOf(d, request);
    MigrationFreesOwnDn(d, primaryUser, request.primaryIdString);
  }

  /** A user with the primary user's id among rows taken from the User
      table is the primary user itself. */
  lemma PrimaryUserKept(d: Db, request: IdentityRequestRow, users: seq<User>, u: User)
    requires Consistent(d) && request in d.identityRequests
    requires forall v | v in users :: v in d.users
    requires u in users && u.id == request.primaryUser
    ensures u == PrimaryUserOf(d, request)
  {
    FindUserUnique(d.users, u);
  }

  /** `confirmIdentityLinking($code, $currentId)`: the request with the code
      is looked up, the portal check is made on its primary user, the
      signed-in ID string must be the request's secondary ID string, and the
      transaction commits or leaves the store unchanged. */
  method ConfirmIdentityLinking(st: Store, cfg: Config, code: string, currentId: string) returns (r: Outcome<Error>)
    requires st.Valid()
    modifies st
    ensures st.Valid()
    ensures r.Fail? ==> st.Snapshot() == old(st.Snapshot())
    ensures GetLinkIdentityRequestByConfirmationCode(old(st.Snapshot()), code).NoResult? ==>
              r == Fail(InvalidConfirmationCode)
    ensures var found := GetLinkIdentityRequestByConfirmationCode(old(st.Snapshot()), code);
            (found.One?
             && CheckPortalIsNotReadOnlyOrUserIsAdmin(cfg, Some(PrimaryUserOf(old(st.Snapshot()), found.value))).Pass?
             && currentId != found.value.secondaryIdString) ==> r == Fail(IdStringMismatch)
    ensures r.Pass? ==>
              var found := GetLinkIdentityRequestByConfirmationCode(old(st.Snapshot()), code);
              && found.One?
              && currentId == found.value.secondaryIdString
              && CheckPortalIsNotReadOnlyOrUserIsAdmin(cfg, Some(PrimaryUserOf(old(st.Snapshot()), found.value))).Pass?
              && found.value.primaryUser in UserIds(st.users)
              && (found.value.secondaryUser.Some? ==> found.value.secondaryUser.value !in UserIds(st.users))
              && HoldsIdString(st.properties, found.value.primaryUser, Some(Trim(found.value.secondaryAuthType)),
                               Trim(currentId))
    // The code works once.
    ensures r.Pass? ==> GetLinkIdentityRequestByConfirmationCode(st.Snapshot(), code).NoResult?
    ensures var found := GetLinkIdentityRequestByConfirmationCode(old(st.Snapshot()), code);
            r.Pass? <==>
              found.One? && currentId == found.value.secondaryIdString
              && IdentityLinkable(old(st.Snapshot()), cfg, found.value)
    ensures r.Pass? ==>
              var found := GetLinkIdentityRequestByConfirmationCode(old(st.Snapshot()), code);
              found.One? && st.Snapshot() == IdentityLinked(old(st.Snapshot()), found.value)
  {
    var d := st.Snapshot();
    var found := GetLinkIdentityRequestByConfirmationCode(d, code);
    if found.NoResult? {
      return Fail(InvalidConfirmationCode);
    }
    if found.NonUnique? {
      return Fail(NonUniqueResult);
    }
    var request := found.value;
    var primaryUser := PrimaryUserOf(d, request);

    var portal := CheckPortalIsNotReadOnlyOrUserIsAdmin(cfg, Some(primaryUser));
    if portal.Fail? {
      return Fail(portal.error);
    }
    if currentId != request.secondaryIdString {
      return Fail(IdStringMismatch);
    }

    var tx := ConfirmIdentityLinkingInTx(d, cfg, request);
    if tx.Failure? {
      return Fail(tx.error);
    }
    st.Commit(tx.value);
    r := Pass;
  }
}
