/** The LinkAccountRequest entity: the older form of a link request, with a
    single authentication type. */
module LinkAccountRequestEntity {
  import opened Wrappers
  import opened Users

  /** The persisted form of a LinkAccountRequest. */
  datatype AccountRequestRow = AccountRequestRow(
    primaryUser: UserId,
    secondaryUser: Option<UserId>,
    confirmCode: string,
    primaryIdString: string,
    secondaryIdString: string,
    authType: string)

  class LinkAccountRequest {
    var primaryUser: UserId
    var secondaryUser: Option<UserId>
    var confirmCode: string
    var primaryIdString: string
    var secondaryIdString: string
    var authType: string

    /** The constructor stores each argument through its setter. */
    constructor (primaryUser: UserId, secondaryUser: Option<UserId>, code: string,
                 primaryIdString: string, secondaryIdString: string, authType: string)
      ensures Row() == AccountRequestRow(primaryUser, secondaryUser, code, primaryIdString,
                                         secondaryIdString, authType)
    {
      this.primaryUser := 0;
      this.secondaryUser := None;
      this.confirmCode := "";
      this.primaryIdString := "";
      this.secondaryIdString := "";
      this.authType := "";
      new;
      SetPrimaryUser(primaryUser);
      SetSecondaryUser(secondaryUser);
      SetConfirmCode(code);
      SetPrimaryIdString(primaryIdString);
      SetSecondaryIdString(secondaryIdString);
      SetAuthType(authType);
    }

    /** The state the ORM writes on flush. */
    function Row(): AccountRequestRow
      reads this
    {
      AccountRequestRow(primaryUser, secondaryUser, confirmCode, primaryIdString,
                        secondaryIdString, authType)
    }

    function GetPrimaryUser(): UserId reads this { primaryUser }
    function GetSecondaryUser(): Option<UserId> reads this { secondaryUser }
    function GetConfirmCode(): string reads this { confirmCode }
    function GetPrimaryIdString(): string reads this { primaryIdString }
    function GetSecondaryIdString(): string reads this { secondaryIdString }
    function GetAuthType(): string reads this { authType }

    method SetPrimaryUser(user: UserId)
      modifies this
      ensures GetPrimaryUser() == user
      ensures Row() == old(Row()).(primaryUser := user)
    {
      primaryUser := user;
    }

    method SetSecondaryUser(user: Option<UserId>)
      modifies this
      ensures GetSecondaryUser() == user
      ensures Row() == old(Row()).(secondaryUser := user)
    {
      secondaryUser := user;
    }

    method SetConfirmCode(code: string)
      modifies this
      ensures GetConfirmCode() == code
      ensures Row() == old(Row()).(confirmCode := code)
    {
      confirmCode := code;
    }

    method SetPrimaryIdString(idString: string)
      modifies this
      ensures GetPrimaryIdString() == idString
      ensures Row() == old(Row()).(primaryIdString := idString)
    {
      primaryIdString := idString;
    }

    method SetSecondaryIdString(idString: string)
      modifies this
      ensures GetSecondaryIdString() == idString
      ensures Row() == old(Row()).(secondaryIdString := idString)
    {
      secondaryIdString := idString;
    }

    method SetAuthType(authType: string)
      modifies this
      ensures GetAuthType() == authType
      ensures Row() == old(Row()).(authType := authType)
    {
      this.authType := authType;
    }
  }
}
