/** The web controller removing one of a user's identifiers: a sequence of
    guards on the signed-in user, the target user and the property, then
    the User service's `deleteUserProperty`. */
module DeleteUserPropertyController {
  import opened Wrappers
  import opened PhpStrings
  import opened Users
  import opened Errors
  import opened EntityService
  import opened UserPropertyEntity
  import opened Orm
  import UserService
  import LinkIdentityService

  /** A user still signed in with `idString` keeps a property holding it
      when a different property is removed. */
  lemma CurrentIdentifierKept(d: Db, d': Db, prop: PropertyRow, idString: string)
    requires ValueTaken(d.properties, idString) && prop.keyValue != Some(idString)
    requires forall p :: p in d'.properties <==> p in d.properties && p != prop
    ensures ValueTaken(d'.properties, idString)
  {
    var i :| 0 <= i < |d.properties| && d.properties[i].keyValue == Some(idString);
    assert d.properties[i] in d.properties;
    var j :| 0 <= j < |d'.properties| && d'.properties[j] == d.properties[i];
  }

  /** `delete_property()`: the signed-in user must be registered and pass the
      portal check; the target user must exist and the signed-in user be
      allowed to edit it; the property must exist and not hold the ID string
      in use. Only then is the property deleted. `getProperty`, which the
      User service does not define, is the lookup by property id. The
      result is the user id the confirmation page shows. */
  method DeleteProperty(st: Store, cfg: Config, currentIdString: string, userId: UserId, propertyId: PropertyId)
    returns (r: Result<UserId, Error>)
    requires st.Valid()
    modifies st
    ensures st.Valid()
    ensures r.Failure? ==> st.Snapshot() == old(st.Snapshot())
    ensures LinkIdentityService.UserByPrinciple(old(st.Snapshot()), currentIdString).None? ==>
              r == Failure(UnregisteredUser)
    ensures var current := LinkIdentityService.UserByPrinciple(old(st.Snapshot()), currentIdString);
            (current.Some? && CheckPortalIsNotReadOnlyOrUserIsAdmin(cfg, current).Pass?
             && userId !in UserIds(old(st.users))) ==> r == Failure(UserNotFound)
    ensures var current := LinkIdentityService.UserByPrinciple(old(st.Snapshot()), currentIdString);
            var property := PropertyById(old(st.properties), propertyId);
            (current.Some? && CheckPortalIsNotReadOnlyOrUserIsAdmin(cfg, current).Pass?
             && UserService.EditUserAuthorization(userId, current).Pass?
             && userId in UserIds(old(st.users))
             && property.Some? && property.value.keyValue == Some(currentIdString))
            ==> r == Failure(CurrentIdentifier)
    // Every guard and the service's own checks passing, and only then, the
    // property is deleted.
    ensures var current := LinkIdentityService.UserByPrinciple(old(st.Snapshot()), currentIdString);
            var user := FindUser(old(st.users), userId);
            var property := PropertyById(old(st.properties), propertyId);
            r.Success? <==>
              && current.Some?
              && CheckPortalIsNotReadOnlyOrUserIsAdmin(cfg, current).Pass?
              && user.Some?
              && UserService.Permitted(cfg, user, userId, current)
              && property.Some?
              && property.value.parentUser == Some(userId)
              && property.value.keyValue != Some(currentIdString)
              && |UserProperties(old(st.properties), userId)| >= 2
    ensures r.Success? ==>
              var property := PropertyById(old(st.properties), propertyId);
              && r.value == userId
              && property.Some?
              && st.Snapshot() == UserService.DeleteUserPropertyLogic(old(st.Snapshot()), userId, property.value).value
    // The identifier the user is signed in with is never removed.
    ensures r.Success? ==> ValueTaken(st.properties, currentIdString)
  {
    var d := st.Snapshot();
    var currentUser := LinkIdentityService.UserByPrinciple(d, currentIdString);
    if currentUser.None? {
      return Failure(UnregisteredUser);
    }
    var portal := CheckPortalIsNotReadOnlyOrUserIsAdmin(cfg, currentUser);
    if portal.Fail? {
      return Failure(portal.error);
    }

    var user := FindUser(d.users, userId);
    var property := PropertyById(d.properties, propertyId);
    if user.None? {
      return Failure(UserNotFound);
    }
    var auth := UserService.EditUserAuthorization(user.value.id, currentUser);
    if auth.Fail? {
      return Failure(auth.error);
    }
    if property.None? {
      return Failure(PropertyNotFound);
    }
    if property.value.keyValue == Some(currentIdString) {
      return Failure(CurrentIdentifier);
    }

    var deleted := UserService.DeleteUserProperty(st, cfg, user.value, property.value, currentUser.value);
    if deleted.Fail? {
      return Failure(deleted.error);
    }
    CurrentIdentifierKept(d, st.Snapshot(), property.value, currentIdString);
    r := Success(userId);
  }
}
