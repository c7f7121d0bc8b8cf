/** What every service inherits from AbstractEntityService, and the portal
    configuration the services read. */
module EntityService {
  import opened Wrappers
  import opened Users
  import opened Errors

  /** The portal configuration: whether the portal is read-only, the maximum
      number of identifiers a user may hold (`getExtensionsLimit`) and the
      class names of the authentication tokens in use, in configured order
      (`MyConfig1::getAuthTokenClassList`). */
  datatype Config = Config(readOnly: bool, extensionsLimit: int, authTokenNames: seq<string>)

  /** `checkPortalIsNotReadOnlyOrUserIsAdmin($user)`: a read-only portal
      admits only administrators. */
  function CheckPortalIsNotReadOnlyOrUserIsAdmin(cfg: Config, user: Option<User>): (r: Outcome<Error>)
    ensures r.Pass? <==> !cfg.readOnly || (user.Some? && user.value.isAdmin)
    ensures r.Fail? ==> r.error == PortalReadOnly
  {
    if cfg.readOnly && !(user.Some? && user.value.isAdmin) then Fail(PortalReadOnly) else Pass
  }
}
