/** The UserProperty entity: one identifier (an authentication type and the
    ID string for it) of a user. */
module UserPropertyEntity {
  import opened Wrappers
  import opened Users

  type PropertyId = nat

  /** The persisted form of a UserProperty: its id, the owning user's id,
      `keyName` (the authentication type) and `keyValue` (the ID string). */
  datatype PropertyRow = PropertyRow(
    id: Option<PropertyId>,
    parentUser: Option<UserId>,
    keyName: Option<string>,
    keyValue: Option<string>)

  class UserProperty {
    var id: Option<PropertyId>
    var parentUser: Option<UserId>
    var keyName: Option<string>
    var keyValue: Option<string>

    /** A new property: no id until persisted, no parent, no key or value. */
    constructor ()
      ensures Row() == PropertyRow(None, None, None, None)
    {
      id := None;
      parentUser := None;
      keyName := None;
      keyValue := None;
    }

    /** The entity the ORM hydrates from a stored row. */
    constructor FromRow(row: PropertyRow)
      ensures Row() == row
    {
      id := row.id;
      parentUser := row.parentUser;
      keyName := row.keyName;
      keyValue := row.keyValue;
    }

    /** The state the ORM writes back on flush. */
    function Row(): PropertyRow
      reads this
    {
      PropertyRow(id, parentUser, keyName, keyValue)
    }

    function GetId(): Option<PropertyId>
      reads this
    {
      id
    }

    function GetParentUser(): Option<UserId>
      reads this
    {
      parentUser
    }

    function GetKeyName(): Option<string>
      reads this
    {
      keyName
    }

    function GetKeyValue(): Option<string>
      reads this
    {
      keyValue
    }

    /** `_setParentUser`: only called from User::addUserPropertyDoJoin. */
    method SetParentUser(user: UserId)
      modifies this
      ensures GetParentUser() == Some(user)
      ensures Row() == old(Row()).(parentUser := Some(user))
    {
      parentUser := Some(user);
    }

    method SetKeyName(name: string)
      modifies this
      ensures GetKeyName() == Some(name)
      ensures Row() == old(Row()).(keyName := Some(name))
    {
      keyName := Some(name);
    }

    method SetKeyValue(value: string)
      modifies this
      ensures GetKeyValue() == Some(value)
      ensures Row() == old(Row()).(keyValue := Some(value))
    {
      keyValue := Some(value);
    }
  }
}
