/** The User entity as far as the identity services see it: its id, e-mail,
    legacy certificate DN, administrator flag and roles over owned entities. */
module Users {
  import opened Wrappers

  type UserId = nat

  /** The kinds of entity a role can be held over. */
  datatype EntityKind = Site | Ngi | ServiceGroup | Project

  /** An OwnedEntity: a site, NGI, service group or project. */
  datatype OwnedEntity = OwnedEntity(kind: EntityKind, id: nat)

  /** A Role: a role over an owned entity with a status such as GRANTED. */
  datatype Role = Role(ownedEntity: OwnedEntity, status: string)

  /** A persisted User. `certificateDn` is the legacy identifier that
      predates user properties; it may be null. */
  datatype User = User(
    id: UserId,
    email: string,
    certificateDn: Option<string>,
    isAdmin: bool,
    roles: seq<Role>)
}
