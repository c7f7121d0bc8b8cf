/** The LinkIdentityRequest entity: a pending request to link a second
    identifier to a user's account, or to recover an account, confirmed by a
    code sent to the user's e-mail address. */
module LinkIdentityRequestEntity {
  import opened Wrappers
  import opened Users

  /** The persisted form of a LinkIdentityRequest. `primaryUser` is the
      account being added to; `secondaryUser` is the account the requester is
      signed in with, if they are registered. */
  datatype IdentityRequestRow = IdentityRequestRow(
    primaryUser: UserId,
    secondaryUser: Option<UserId>,
    confirmCode: string,
    primaryIdString: string,
    secondaryIdString: string,
    primaryAuthType: string,
    secondaryAuthType: string)

  class LinkIdentityRequest {
    var primaryUser: UserId
    var secondaryUser: Option<UserId>
    var confirmCode: string
    var primaryIdString: string
    var secondaryIdString: string
    var primaryAuthType: string
    var secondaryAuthType: string

    /** The constructor stores each argument through its setter. */
    constructor (primaryUser: UserId, secondaryUser: Option<UserId>, code: string,
                 primaryIdString: string, secondaryIdString: string,
                 primaryAuthType: string, secondaryAuthType: string)
      ensures Row() == IdentityRequestRow(primaryUser, secondaryUser, code, primaryIdString,
                                          secondaryIdString, primaryAuthType, secondaryAuthType)
    {
      this.primaryUser := 0;
      this.secondaryUser := None;
      this.confirmCode := "";
      this.primaryIdString := "";
      this.secondaryIdString := "";
      this.primaryAuthType := "";
      this.secondaryAuthType := "";
      new;
      SetPrimaryUser(primaryUser);
      SetSecondaryUser(secondaryUser);
      SetConfirmCode(code);
      SetPrimaryIdString(primaryIdString);
      SetSecondaryIdString(secondaryIdString);
      SetPrimaryAuthType(primaryAuthType);
      SetSecondaryAuthType(secondaryAuthType);
    }

    /** The state the ORM writes on flush. */
    function Row(): IdentityRequestRow
      reads this
    {
      IdentityRequestRow(primaryUser, secondaryUser, confirmCode, primaryIdString,
                         secondaryIdString, primaryAuthType, secondaryAuthType)
    }

    function GetPrimaryUser(): UserId reads this { primaryUser }
    function GetSecondaryUser(): Option<UserId> reads this { secondaryUser }
    function GetConfirmCode(): string reads this { confirmCode }
    function GetPrimaryIdString(): string reads this { primaryIdString }
    function GetSecondaryIdString(): string reads this { secondaryIdString }
    function GetPrimaryAuthType(): string reads this { primaryAuthType }
    function GetSecondaryAuthType(): string reads this { secondaryAuthType }

    method SetPrimaryUser(user: UserId)
      modifies this
      ensures GetPrimaryUser() == user
      ensures Row() == old(Row()).(primaryUser := user)
    {
      primaryUser := user;
    }

    method SetSecondaryUser(user: Option<UserId>)
      modifies this
      ensures GetSecondaryUser() == user
      ensures Row() == old(Row()).(secondaryUser := user)
    {
      secondaryUser := user;
    }

    method SetConfirmCode(code: string)
      modifies this
      ensures GetConfirmCode() == code
      ensures Row() == old(Row()).(confirmCode := code)
    {
      confirmCode := code;
    }

    method SetPrimaryIdString(idString: string)
      modifies this
      ensures GetPrimaryIdString() == idString
      ensures Row() == old(Row()).(primaryIdString := idString)
    {
      primaryIdString := idString;
    }

    method SetSecondaryIdString(idString: string)
      modifies this
      ensures GetSecondaryIdString() == idString
      ensures Row() == old(Row()).(secondaryIdString := idString)
    {
      secondaryIdString := idString;
    }

    method SetPrimaryAuthType(authType: string)
      modifies this
      ensures GetPrimaryAuthType() == authType
      ensures Row() == old(Row()).(primaryAuthType := authType)
    {
      primaryAuthType := authType;
    }

    method SetSecondaryAuthType(authType: string)
      modifies this
      ensures GetSecondaryAuthType() == authType
      ensures Row() == old(Row()).(secondaryAuthType := authType)
    {
      secondaryAuthType := authType;
    }
  }
}
