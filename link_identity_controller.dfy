/** The web controller for identity linking: `draw` shows the request form
    (or the page refusing users with several identifiers), `submit` files the
    request through the LinkIdentity service. */
module LinkIdentityController {
  import opened Wrappers
  import opened Seqs
  import opened PhpStrings
  import opened Users
  import opened Errors
  import opened EntityService
  import opened UserPropertyEntity
  import opened Orm
  import UserService
  import LinkIdentityService

  /** The posted form fields: the primary account's ID string, its e-mail
      address and its authentication type. */
  datatype Form = Form(primaryIdString: string, email: string, authType: string)

  /** The parameters `draw` passes to its view. */
  datatype DrawParams = DrawParams(
    registered: bool,
    idString: string,
    currentAuthType: string,
    authTypes: seq<string>,
    otherProperties: seq<PropertyRow>)

  /** The parameters of the page confirming a filed request. */
  datatype AcceptedParams = AcceptedParams(idString: string, authType: string, email: string, requestText: string)

  /** The view the controller renders. */
  datatype Page =
    | ErrorPage(error: Error)
    | LinkIdentityForm(draw: DrawParams)
    | LinkIdentityRejected(draw: DrawParams)
    | LinkIdentityAccepted(accepted: AcceptedParams)

  /* ---------------------------------------------------------------------- */
  /* draw                                                                   */
  /* ---------------------------------------------------------------------- */

  function NotValued(idString: string): PropertyRow -> bool {
    (p: PropertyRow) => p.keyValue != Some(idString)
  }

  /** The loop building OTHERPROPERTIES: the properties whose value is not
      the current ID string, in order. */
  method OtherProperties(props: seq<PropertyRow>, idString: string) returns (others: seq<PropertyRow>)
    ensures others == Filter(props, NotValued(idString))
  {
    others := [];
    var i := 0;
    while i < |props|
      invariant 0 <= i <= |props|
      invariant others == Filter(props[..i], NotValued(idString))
    {
      FilterSnoc(props, i, NotValued(idString));
      if props[i].keyValue != Some(idString) {
        others := others + [props[i]];
      }
      i := i + 1;
    }
    assert props[..|props|] == props;
  }

  /** For a registered user signed in with one of its ID strings, the other
      properties are all of its properties but that one. */
  lemma OtherPropertiesAllButCurrent(d: Db, uid: UserId, idString: string)
    requires Consistent(d) && HoldsIdString(d.properties, uid, None, idString)
    ensures var props := UserProperties(d.properties, uid);
            && |Filter(props, NotValued(idString))| == |props| - 1
            && forall p | p in props && p.keyValue != Some(idString) :: p in Filter(props, NotValued(idString))
  {
    var props := UserProperties(d.properties, uid);
    var i :| 0 <= i < |d.properties| && d.properties[i].parentUser == Some(uid)
             && d.properties[i].keyValue == Some(idString);
    assert d.properties[i] in props;
    var k :| 0 <= k < |props| && props[k] == d.properties[i];
    FilterPairwise(d.properties, OwnedBy(uid), PropertiesCompatible());
    forall j | 0 <= j < |props| && j != k ensures NotValued(idString)(props[j]) {
      if j < k {
        assert PropertiesCompatible()(props[j], props[k]);
      } else {
        assert PropertiesCompatible()(props[k], props[j]);
      }
    }
    FilterDropsOne(props, k, NotValued(idString));
  }

  /** `draw()`: an empty principal is an error; otherwise the form, marked
      registered when a user holds the ID string, unless that user has more
      than one identifier, who gets the rejection page listing the others. */
  method Draw(d: Db, cfg: Config, idString: string, authType: string) returns (page: Page)
    requires Consistent(d)
    ensures Empty(idString) <==> page == ErrorPage(NotAuthenticated)
    ensures !Empty(idString) ==>
              && (page.LinkIdentityForm? || page.LinkIdentityRejected?)
              && (page.draw.registered <==> ValueTaken(d.properties, idString))
              && page.draw.idString == idString
              && page.draw.currentAuthType == authType
              && page.draw.authTypes == UserService.AuthTypes(cfg.authTokenNames, true)
    ensures !Empty(idString) ==>
              var user := LinkIdentityService.UserByPrinciple(d, idString);
              && (page.LinkIdentityRejected? <==> user.Some? && |UserProperties(d.properties, user.value.id)| > 1)
              && (page.LinkIdentityRejected? ==>
                    page.draw.otherProperties ==
                      Filter(UserProperties(d.properties, user.value.id), NotValued(idString)))
  {
    if Empty(idString) {
      return ErrorPage(NotAuthenticated);
    }
    var user := LinkIdentityService.UserByPrinciple(d, idString);
    var authTypes := UserService.GetAuthTypes(cfg.authTokenNames, true);
    var params := DrawParams(user.Some?, idString, authType, authTypes, []);
    if user.Some? {
      var props := UserProperties(d.properties, user.value.id);
      if |props| > 1 {
        var others := OtherProperties(props, idString);
        return LinkIdentityRejected(params.(otherProperties := others));
      }
    }
    page := LinkIdentityForm(params);
  }

  /* ---------------------------------------------------------------------- */
  /* submit                                                                 */
  /* ---------------------------------------------------------------------- */

  /** The REQUESTTEXT of the accepted page. */
  function RequestText(primaryAuthType: string, currentAuthType: string): (t: string)
    ensures t == "account recovery" <==> primaryAuthType == currentAuthType
    ensures t == "identity linking" <==> primaryAuthType != currentAuthType
  {
    if primaryAuthType == currentAuthType then "account recovery" else "identity linking"
  }

  /** The page's text and the service's request type make the same
      decision: the page announces a recovery exactly when the service
      files one. */
  lemma RequestTextMatchesRequestType(primaryAuthType: string, currentAuthType: string)
    ensures RequestText(primaryAuthType, currentAuthType) == "account recovery" <==>
              LinkIdentityService.RequestType(primaryAuthType, currentAuthType) == "recover"
  {
  }

  /** `submit()` as written: the service is called with
      `($primaryIdString, $currentIdString, $primaryAuthType, $currentAuthType,
      $givenEmail)`, against its parameters `($currentIdString, $givenEmail,
      $primaryIdString, $primaryAuthType, $currentAuthType)`. So the primary
      account is looked up with the form's authentication type as ID string
      and the signed-in authentication type as its type, its e-mail address
      is compared with the signed-in ID string, and the request filed names
      the form's primary ID string as the requester's. */
  method Submit(st: Store, cfg: Config, form: Form, currentIdString: string, currentAuthType: string,
                code: string, mailDelivered: bool)
    returns (page: Page)
    requires st.Valid()
    modifies st
    ensures st.Valid()
    ensures Empty(currentIdString) ==> page == ErrorPage(NotAuthenticated) && st.Snapshot() == old(st.Snapshot())
    ensures !Empty(currentIdString) && currentIdString == form.primaryIdString ==>
              page == ErrorPage(SameIdString) && st.Snapshot() == old(st.Snapshot())
    ensures page.LinkIdentityAccepted? ==>
              page.accepted == AcceptedParams(form.primaryIdString, form.authType, form.email,
                                              RequestText(form.authType, currentAuthType))
    ensures page.LinkIdentityAccepted? ==>
              var primary := LinkIdentityService.LookupPrimaryUser(old(st.Snapshot()), form.authType, currentAuthType);
              var filed := LinkIdentityService.GetLinkIdentityRequestByIdString(st.Snapshot(), form.primaryIdString);
              && primary.Success?
              && SameIgnoringCase(primary.value.email, currentIdString)
              && filed.One?
              && filed.value.secondaryIdString == form.primaryIdString
              && filed.value.secondaryIdString != currentIdString
              && filed.value.primaryIdString == form.authType
    ensures st.users == old(st.users) && st.properties == old(st.properties)
    ensures st.accountRequests == old(st.accountRequests) && st.nextPropertyId == old(st.nextPropertyId)
    // The page is accepted exactly when both guards and the service pass.
    ensures page.LinkIdentityAccepted? <==>
              && !Empty(currentIdString) && currentIdString != form.primaryIdString
              && LinkIdentityService.RequestFileable(old(st.Snapshot()), cfg, form.primaryIdString, currentIdString,
                                                     form.authType, currentAuthType, form.email, code)
              && mailDelivered
    // An error page leaves every table but the requests as it was; only the
    // removal of the earlier request may have been committed.
    ensures page.ErrorPage? ==>
              st.identityRequests == old(st.identityRequests)
              || st.identityRequests ==
                   Filter(old(st.identityRequests), LinkIdentityService.NotMentioning(form.primaryIdString))
  {
    if Empty(currentIdString) {
      return ErrorPage(NotAuthenticated);
    }
    if currentIdString == form.primaryIdString {
      return ErrorPage(SameIdString);
    }
    var filed := LinkIdentityService.NewLinkIdentityRequest(st, cfg, form.primaryIdString, currentIdString,
                                                            form.authType, currentAuthType, form.email,
                                                            code, mailDelivered);
    if filed.Fail? {
      return ErrorPage(filed.error);
    }
    page := LinkIdentityAccepted(AcceptedParams(form.primaryIdString, form.authType, form.email,
                                                RequestText(form.authType, currentAuthType)));
  }

  /** `submit()` with the arguments in the order of the service's parameters:
      the primary account is the one the form names, its e-mail is the one
      the form gives, and the request filed is the signed-in user's. */
  method SubmitCorrected(st: Store, cfg: Config, form: Form, currentIdString: string, currentAuthType: string,
                         code: string, mailDelivered: bool)
    returns (page: Page)
    requires st.Valid()
    modifies st
    ensures st.Valid()
    ensures Empty(currentIdString) ==> page == ErrorPage(NotAuthenticated) && st.Snapshot() == old(st.Snapshot())
    ensures !Empty(currentIdString) && currentIdString == form.primaryIdString ==>
              page == ErrorPage(SameIdString) && st.Snapshot() == old(st.Snapshot())
    ensures page.LinkIdentityAccepted? ==>
              page.accepted == AcceptedParams(form.primaryIdString, form.authType, form.email,
                                              RequestText(form.authType, currentAuthType))
    ensures page.LinkIdentityAccepted? ==>
              var primary :=
                LinkIdentityService.LookupPrimaryUser(old(st.Snapshot()), form.primaryIdString, form.authType);
              var filed := LinkIdentityService.GetLinkIdentityRequestByIdString(st.Snapshot(), currentIdString);
              && primary.Success?
              && SameIgnoringCase(primary.value.email, form.email)
              && filed.One?
              && filed.value.primaryUser == primary.value.id
              && filed.value.secondaryIdString == currentIdString
              && filed.value.primaryIdString == form.primaryIdString
              && filed.value.primaryAuthType == form.authType
              && filed.value.secondaryAuthType == currentAuthType
    ensures st.users == old(st.users) && st.properties == old(st.properties)
    ensures st.accountRequests == old(st.accountRequests) && st.nextPropertyId == old(st.nextPropertyId)
    // The page is accepted exactly when both guards and the service pass.
    ensures page.LinkIdentityAccepted? <==>
              && !Empty(currentIdString) && currentIdString != form.primaryIdString
              && LinkIdentityService.RequestFileable(old(st.Snapshot()), cfg, currentIdString, form.email,
                                                     form.primaryIdString, form.authType, currentAuthType, code)
              && mailDelivered
    // An error page leaves every table but the requests as it was; only the
    // removal of the earlier request may have been committed.
    ensures page.ErrorPage? ==>
              st.identityRequests == old(st.identityRequests)
              || st.identityRequests ==
                   Filter(old(st.identityRequests), LinkIdentityService.NotMentioning(currentIdString))
  {
    if Empty(currentIdString) {
      return ErrorPage(NotAuthenticated);
    }
    if currentIdString == form.primaryIdString {
      return ErrorPage(SameIdString);
    }
    var filed := LinkIdentityService.NewLinkIdentityRequest(st, cfg, currentIdString, form.email,
                                                            form.primaryIdString, form.authType, currentAuthType,
                                                            code, mailDelivered);
    if filed.Fail? {
      return ErrorPage(filed.error);
    }
    page := LinkIdentityAccepted(AcceptedParams(form.primaryIdString, form.authType, form.email,
                                                RequestText(form.authType, currentAuthType)));
  }

  /** A store with one user, known by the certificate DN "/CN=alice" held as
      an X.509 property. */
  function AliceDb(): Db {
    Db([User(1, "alice@example.org", None, false, [])],
       [PropertyRow(Some(0), Some(1), Some("X.509"), Some("/CN=alice"))],
       [], [], 1)
  }

  /** Alice, signed in through another identity provider, asks to link to
      her X.509 account. The lookup the submission should make finds her
      account; the one it makes, with the arguments in the written order,
      finds nobody, so as written the request cannot be filed. */
  lemma SwappedArgumentsMissPrimary()
    ensures Consistent(AliceDb())
    ensures LinkIdentityService.LookupPrimaryUser(AliceDb(), "/CN=alice", "X.509") ==
              Success(User(1, "alice@example.org", None, false, []))
    ensures LinkIdentityService.LookupPrimaryUser(AliceDb(), "X.509", "EGI Proxy IdP") ==
              Failure(PrimaryUserNotFound)
  {
    AliceDbConsistent();
    AliceFoundByHerDn();
    SwappedLookupFindsNobody();
  }

  lemma AliceDbConsistent()
    ensures Consistent(AliceDb())
  {
    var d := AliceDb();
    assert UserIds(d.users) == {1};
  }

  lemma AliceFoundByHerDn()
    ensures LinkIdentityService.LookupPrimaryUser(AliceDb(), "/CN=alice", "X.509") ==
              Success(User(1, "alice@example.org", None, false, []))
  {
    var d := AliceDb();
    var alice := d.users[0];
    assert d.properties[0].parentUser == Some(1) && d.properties[0].keyName == Some("X.509")
           && d.properties[0].keyValue == Some("/CN=alice");
    assert HoldsIdString(d.properties, 1, Some("X.509"), "/CN=alice");
    assert HoldsIn(d.properties, Some("X.509"), "/CN=alice")(alice);
    assert d.users[1..] == [];
    assert UsersHolding(d, Some("X.509"), "/CN=alice") == [alice];
  }

  lemma SwappedLookupFindsNobody()
    ensures LinkIdentityService.LookupPrimaryUser(AliceDb(), "X.509", "EGI Proxy IdP") ==
              Failure(PrimaryUserNotFound)
  {
    var d := AliceDb();
    assert d.users[1..] == [];
    assert !HoldsIdString(d.properties, 1, Some("EGI Proxy IdP"), "X.509");
    assert UsersHolding(d, Some("EGI Proxy IdP"), "X.509") == [];
    assert UsersWithDn(d.users, "X.509") == [];
  }

  /* ---------------------------------------------------------------------- */
  /* link_identity                                                          */
  /* ---------------------------------------------------------------------- */

  /** `link_identity()`: a read-only portal refuses the page outright
      (`checkPortalIsNotReadOnly`); a POST submits, anything else draws.
      The submission is `submit()` as written, with the service's arguments
      out of order. */
  method LinkIdentity(st: Store, cfg: Config, posted: bool, form: Form, currentIdString: string,
                      currentAuthType: string, code: string, mailDelivered: bool)
    returns (page: Page)
    requires st.Valid()
    modifies st
    ensures st.Valid()
    ensures cfg.readOnly ==> page == ErrorPage(PortalReadOnly) && st.Snapshot() == old(st.Snapshot())
    ensures !posted ==> st.Snapshot() == old(st.Snapshot())
    ensures !cfg.readOnly && !posted && !Empty(currentIdString) ==>
              (page.LinkIdentityForm? || page.LinkIdentityRejected?)
              && page.draw.registered == ValueTaken(old(st.properties), currentIdString)
    ensures page.LinkIdentityAccepted? ==>
              posted && !cfg.readOnly
              && LinkIdentityService.LookupPrimaryUser(old(st.Snapshot()), form.authType, currentAuthType).Success?
              && LinkIdentityService.GetLinkIdentityRequestByIdString(st.Snapshot(), form.primaryIdString).One?
    ensures st.users == old(st.users) && st.properties == old(st.properties)
    ensures st.accountRequests == old(st.accountRequests) && st.nextPropertyId == old(st.nextPropertyId)
    ensures page.LinkIdentityAccepted? <==>
              && posted && !cfg.readOnly
              && !Empty(currentIdString) && currentIdString != form.primaryIdString
              && LinkIdentityService.RequestFileable(old(st.Snapshot()), cfg, form.primaryIdString, currentIdString,
                                                     form.authType, currentAuthType, form.email, code)
              && mailDelivered
    ensures page.ErrorPage? ==>
              st.identityRequests == old(st.identityRequests)
              || st.identityRequests ==
                   Filter(old(st.identityRequests), LinkIdentityService.NotMentioning(form.primaryIdString))
  {
    if cfg.readOnly {
      return ErrorPage(PortalReadOnly);
    }
    if posted {
      page := Submit(st, cfg, form, currentIdString, currentAuthType, code, mailDelivered);
    } else {
      page := Draw(st.Snapshot(), cfg, currentIdString, currentAuthType);
    }
  }

  /** `link_identity()` with the submission passing the service its
      arguments in its parameters' order. */
  method LinkIdentityCorrected(st: Store, cfg: Config, posted: bool, form: Form, currentIdString: string,
                               currentAuthType: string, code: string, mailDelivered: bool)
    returns (page: Page)
    requires st.Valid()
    modifies st
    ensures st.Valid()
    ensures cfg.readOnly ==> page == ErrorPage(PortalReadOnly) && st.Snapshot() == old(st.Snapshot())
    ensures !posted ==> st.Snapshot() == old(st.Snapshot())
    ensures page.LinkIdentityAccepted? ==>
              posted && !cfg.readOnly
              && LinkIdentityService.LookupPrimaryUser(old(st.Snapshot()), form.primaryIdString, form.authType).Success?
              && LinkIdentityService.GetLinkIdentityRequestByIdString(st.Snapshot(), currentIdString).One?
    ensures st.users == old(st.users) && st.properties == old(st.properties)
    ensures st.accountRequests == old(st.accountRequests) && st.nextPropertyId == old(st.nextPropertyId)
    ensures page.LinkIdentityAccepted? <==>
              && posted && !cfg.readOnly
              && !Empty(currentIdString) && currentIdString != form.primaryIdString
              && LinkIdentityService.RequestFileable(old(st.Snapshot()), cfg, currentIdString, form.email,
                                                     form.primaryIdString, form.authType, currentAuthType, code)
              && mailDelivered
    ensures page.ErrorPage? ==>
              st.identityRequests == old(st.identityRequests)
              || st.identityRequests ==
                   Filter(old(st.identityRequests), LinkIdentityService.NotMentioning(currentIdString))
  {
    if cfg.readOnly {
      return ErrorPage(PortalReadOnly);
    }
    if posted {
      page := SubmitCorrected(st, cfg, form, currentIdString, currentAuthType, code, mailDelivered);
    } else {
      page := Draw(st.Snapshot(), cfg, currentIdString, currentAuthType);
    }
  }
}
