/** The exceptions the services and controllers throw, one constructor per
    distinct message or cause. */
module Errors {

  datatype Error =
    // AbstractEntityService::checkPortalIsNotReadOnlyOrUserIsAdmin
    | PortalReadOnly
    // User::editUserAuthorization
    | UnregisteredEditor
    | NotPermitted
    // User::valdidateUniqueIdString
    | IdStringRegistered
    // User::valdidateAuthType
    | InvalidAuthType
    // User::addUserPropertyLogic / editUserPropertyValidation
    | DuplicatePropertyName
    | PropertyLimitExceeded
    | PropertyNotOwned
    | PropertyUnchanged
    // User::deleteUserPropertyLogic
    | LastIdentifier
    // User::getDefaultIdString on a user without properties
    | NoIdentifier
    // User::migrateUserCredentials
    | CertificateDnMismatch
    // a database unique or foreign-key constraint rejected the flush
    | ConstraintViolation
    // Doctrine's getOneOrNullResult found more than one row
    | NonUniqueResult
    // LinkIdentity / LinkAccount
    | PrimaryUserNotFound
    | EmailMismatch
    | AlreadyAssociated
    | MailNotSent
    | InvalidRequestType
    | InvalidConfirmationCode
    | IdStringMismatch
    // controllers
    | NotAuthenticated
    | SameIdString
    | UnregisteredUser
    | UserNotFound
    | PropertyNotFound
    | CurrentIdentifier
    // GetNGI
    | InvalidArgument
    | UnsupportedRendering
    | InvalidRenderingState
}
