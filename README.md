# GOCDB user identities, identity linking and NGI paging, in Dafny

This project models the part of GOCDB that manages how a person signs in and
how accounts are tied together:

- **User identifiers.** A user holds identifiers, the `UserProperty`
  entities. Each one maps an authentication type (`X.509`, `EGI Proxy IdP`,
  …) to an ID string. A user may also hold a legacy certificate DN. The User
  service adds, edits, deletes and migrates identifiers. It also answers the
  lookups built on them: a user by principle, a user by principle and type,
  a user by DN, a user's ID string by type, a user's default ID string, the
  authentication types in use, and the entities a user holds roles over.
- **Identity linking and account recovery.** A signed-in person files a
  request naming a registered ("primary") account. Confirming the request
  with its emailed code moves the requester's identifier onto the primary
  account and deletes the requester's own account. The web controllers that
  draw and submit the linking form and delete an identifier are modelled
  too.
- **Legacy account linking.** The older version of that workflow, which
  also rewrites the primary account's certificate DN.
- **Cursor paging in the GetNGI query** of the programmatic interface.

The persisted state is a value `Orm.Db`. It holds the users, the property
rows, the two request tables and the next generated property id. The
invariant of that state is one predicate, `Orm.Consistent`:

- a user holds at most one property per type (a unique constraint of
  `UserProperty`);
- an ID string is held by at most one property (the unique `keyValue`
  column);
- every property has a type (the non-null `keyName` column) and an owner
  that exists. The `parentUser` join column is nullable, so the schema
  does not demand an owner; the services establish it, since every
  property they create is given its user through `_setParentUser`;
- every request names users that exist.

The unique indexes on a request's user columns are not part of
`Consistent`. They are checked where a request is flushed, by
`RequestUsersTaken` in each linking service.

`Orm.Store` is a class holding that state. Each public service operation
takes the store, and either commits a new consistent state or leaves the
store unchanged, the way the services' transactions roll back on an
exception. The two exceptions are `newLinkIdentityRequest` and
`newLinkAccountRequest`. Each removes the earlier request in a transaction
of its own, so a later failure leaves that removal committed. Every
state-changing step is proved to keep `Consistent`. Two steps are proved to
fail exactly when a constraint would be violated on flush: adding a
duplicate identifier, and filing a second request for the same users.
Confirming an account link is proved to fail whenever the registered
requester still holds its identifier. That holds under the intended
reading of the undefined methods `confirmAccountLinking` calls; as
written, it throws before the flush (see "## Left out").

Entities whose fields the source sets one by one are classes with setters:

- `UserProperty`;
- `LinkIdentityRequest`;
- `LinkAccountRequest`;
- the GetNGI query object.

Lookups that Doctrine answers with `getOneOrNullResult` return an
`Orm.Lookup`: no result, one result, or not unique.

Files:

- `wrappers.dfy`: Option, Result and Outcome.
- `errors.dfy`: the exceptions as an `Error` datatype.
- `seqs.dfy`: filtering, de-duplication and ordering lemmas on sequences.
- `php_strings.dfy`: `trim`, `empty()`, `strcasecmp` equality, `strpos`
  containment, and integer to string.
- `users.dfy`: users, roles and configuration.
- `user_property.dfy`, `link_identity_request.dfy`,
  `link_account_request.dfy`: the entities.
- `store.dfy`: the state, its constraints, the ORM lookups, and cascading
  user removal.
- `entity_service.dfy`: the read-only portal check.
- `user_service.dfy`, `link_identity.dfy`, `link_account.dfy`: the
  services.
- `link_identity_controller.dfy`, `delete_user_property_controller.dfy`:
  the controllers.
- `get_ngi.dfy`: the NGI query.

## Model

| member | source | states |
|---|---|---|
| Orm.Single | lib/Gocdb_Services/User.php:72-83 | `getOneOrNullResult`: null for no rows, the row for exactly one row, and "not unique" for more than one |
| Orm.PropertyRowsDistinct | lib/Doctrine/entities/UserProperty.php:9-35 | under the table constraints, no two property rows are equal |
| Orm.FindUser | lib/Gocdb_Services/User.php:47-49 | `getUser($id)` finds a user exactly when one has that id, and the user it returns has it |
| Orm.FindUserUnique | lib/Gocdb_Services/User.php:47-49 | with distinct user ids, looking up a stored user's id returns that user |
| Orm.ReplaceUser | lib/Gocdb_Services/LinkAccount.php:294-301 | persisting a changed user replaces the row with that id and no other |
| Orm.ReplaceUserConsistent | lib/Gocdb_Services/LinkAccount.php:294-301 | replacing a user keeps the set of user ids and every table constraint |
| Orm.PropertyById | lib/Gocdb_Services/User.php:455-459 | the property found has that id; none is found only when no property has it |
| Orm.GetUserByCertificateDn | lib/Gocdb_Services/User.php:56-65 | an empty DN or a DN no user has gives null; a single result is a user with that DN and the only user carrying it |
| Orm.HoldersAgree | lib/Doctrine/entities/UserProperty.php:35 | because keyValue is unique, two users holding the same ID string are the same user |
| Orm.UsersHoldingAtMostOne | lib/Gocdb_Services/User.php:72-104 | the principle queries match at most one user |
| Orm.UsersHoldingNonEmpty | lib/Gocdb_Services/User.php:72-104 | the principle queries match a user exactly when some property row holds the ID string (of that type) |
| Orm.PrincipleLookup | lib/Gocdb_Services/User.php:72-83 | `getUserByPrinciple` is never non-unique, finds a user exactly for a non-empty ID string some property holds, and that user holds it |
| Orm.PrincipleAndTypeLookup | lib/Gocdb_Services/User.php:91-104 | `getUserByPrincipleAndType` is never non-unique, and the user found holds the ID string under that type |
| Orm.DropUser | lib/Doctrine/entities/UserProperty.php:13-28 | removing a user also removes its properties and every request naming it (ON DELETE CASCADE), and nothing else |
| Orm.RemoveUser | lib/Gocdb_Services/User.php:403-418 | removing a user keeps the constraints, removes exactly that id, leaves it no properties, and leaves other users' properties as they were |
| Orm.RemoveUserLemma | lib/Doctrine/entities/UserProperty.php:13-28 | the cascade leaves a consistent state in which other users' properties are unchanged |
| Orm.Store.Commit | lib/Gocdb_Services/LinkIdentity.php:93 | a commit makes the given state the stored one |
| EntityService.CheckPortalIsNotReadOnlyOrUserIsAdmin | htdocs/web_portal/controllers/user/delete_user_property.php:41-42 | passes exactly when the portal is writable or the user is an administrator; otherwise fails with the read-only error |
| UserPropertyEntity.UserProperty.constructor | lib/Doctrine/entities/UserProperty.php:38-39 | a new property has no id, owner, type or value |
| UserPropertyEntity.UserProperty.FromRow | lib/Doctrine/entities/UserProperty.php:38-72 | an entity loaded from a row reads back as that row |
| UserPropertyEntity.UserProperty.SetParentUser | lib/Doctrine/entities/UserProperty.php:85-87 | sets the owner, which the getter then returns, and changes no other field |
| UserPropertyEntity.UserProperty.SetKeyName | lib/Doctrine/entities/UserProperty.php:95-97 | sets the type, which the getter then returns, and changes no other field |
| UserPropertyEntity.UserProperty.SetKeyValue | lib/Doctrine/entities/UserProperty.php:104-106 | sets the ID string, which the getter then returns, and changes no other field |
| LinkIdentityRequestEntity.LinkIdentityRequest.constructor | lib/Doctrine/entities/LinkIdentityRequest.php:45-53 | each of the seven arguments lands in its own column |
| LinkIdentityRequestEntity.LinkIdentityRequest.SetPrimaryUser | lib/Doctrine/entities/LinkIdentityRequest.php:125-127 | sets only the primary user, which `getPrimaryUser` returns |
| LinkIdentityRequestEntity.LinkIdentityRequest.SetSecondaryUser | lib/Doctrine/entities/LinkIdentityRequest.php:133-135 | sets only the (nullable) secondary user, which `getSecondaryUser` returns |
| LinkIdentityRequestEntity.LinkIdentityRequest.SetConfirmCode | lib/Doctrine/entities/LinkIdentityRequest.php:143-145 | sets only the code, which `getConfirmCode` returns |
| LinkIdentityRequestEntity.LinkIdentityRequest.SetPrimaryIdString | lib/Doctrine/entities/LinkIdentityRequest.php:151-153 | sets only the primary ID string, which its getter returns |
| LinkIdentityRequestEntity.LinkIdentityRequest.SetSecondaryIdString | lib/Doctrine/entities/LinkIdentityRequest.php:159-161 | sets only the secondary ID string, which its getter returns |
| LinkIdentityRequestEntity.LinkIdentityRequest.SetPrimaryAuthType | lib/Doctrine/entities/LinkIdentityRequest.php:167-169 | sets only the primary authentication type, which its getter returns |
| LinkIdentityRequestEntity.LinkIdentityRequest.SetSecondaryAuthType | lib/Doctrine/entities/LinkIdentityRequest.php:175-177 | sets only the secondary authentication type, which its getter returns |
| LinkAccountRequestEntity.LinkAccountRequest.constructor | lib/Doctrine/entities/LinkAccountRequest.php:42-49 | each of the six arguments lands in its own column, with a single authentication type |
| LinkAccountRequestEntity.LinkAccountRequest.SetPrimaryUser | lib/Doctrine/entities/LinkAccountRequest.php:113-115 | sets only the primary user, which `getPrimaryUser` returns |
| LinkAccountRequestEntity.LinkAccountRequest.SetSecondaryUser | lib/Doctrine/entities/LinkAccountRequest.php:121-123 | sets only the (nullable) secondary user, which `getSecondaryUser` returns |
| LinkAccountRequestEntity.LinkAccountRequest.SetConfirmCode | lib/Doctrine/entities/LinkAccountRequest.php:131-133 | sets only the code, which `getConfirmCode` returns |
| LinkAccountRequestEntity.LinkAccountRequest.SetPrimaryIdString | lib/Doctrine/entities/LinkAccountRequest.php:139-141 | sets only the primary ID string, which its getter returns |
| LinkAccountRequestEntity.LinkAccountRequest.SetSecondaryIdString | lib/Doctrine/entities/LinkAccountRequest.php:147-149 | sets only the secondary ID string, which its getter returns |
| LinkAccountRequestEntity.LinkAccountRequest.SetAuthType | lib/Doctrine/entities/LinkAccountRequest.php:155-157 | sets only the authentication type, which `getAuthType` returns |
| UserService.EditUserAuthorization | lib/Gocdb_Services/User.php:317-330 | passes exactly for an administrator or the edited user; fails for a missing current user with the "unregistered" error |
| UserService.OwnedEntities | lib/Gocdb_Services/User.php:146-155 | each role gives its owned entity, position by position |
| UserService.EntitiesFromRoles | lib/Gocdb_Services/User.php:133-158 | the append loop with `continue 2` returns the owned entities of the matching roles with repeats dropped |
| UserService.AlreadyListed | lib/Gocdb_Services/User.php:148-152 | the inner loop reports the entity as seen exactly when it is already in the list |
| UserService.GetSitesFromRoles | lib/Gocdb_Services/User.php:133-158 | the distinct sites of the user's roles with that status |
| UserService.GetNgisFromRoles | lib/Gocdb_Services/User.php:166-190 | the distinct NGIs of the user's roles with that status |
| UserService.GetSGroupsFromRoles | lib/Gocdb_Services/User.php:198-223 | the distinct service groups of the user's roles with that status |
| UserService.GetProjectsFromRoles | lib/Gocdb_Services/User.php:231-256 | the distinct projects of the user's roles with that status |
| UserService.RoleEntitiesListed | lib/Gocdb_Services/User.php:146-155 | the list has no repeats, holds exactly the entities of matching roles, and keeps their order of first occurrence |
| UserService.GetAuthTypes | lib/Gocdb_Services/User.php:480-510 | the loop over the token classes collects each token's realms in token order |
| UserService.AuthTypesListed | lib/Gocdb_Services/User.php:480-510 | a type is listed exactly when some configured token contributes it |
| UserService.ReducedAuthTypesAreValid | lib/Gocdb_Services/User.php:480-510 | every reduced realm is also a full realm, so the types offered on the form pass the type check |
| UserService.X509Listed | lib/Gocdb_Services/User.php:480-510 | `X.509` is listed exactly when a token class name contains `X509` |
| UserService.LastValueNamedIsLast | lib/Gocdb_Services/User.php:547-565 | the loop keeps the value of the last property of the requested type |
| UserService.LastValueNamedAbsent | lib/Gocdb_Services/User.php:547-565 | with no property of that type the result is null |
| UserService.GetIdStringByAuthType | lib/Gocdb_Services/User.php:547-565 | the loop returns the last value of that type, or the certificate DN for `X.509` when the user has no properties |
| UserService.IdStringOfOwnProperty | lib/Gocdb_Services/User.php:547-565 | under the constraints, a user's property of a type is what the lookup returns for that type |
| UserService.FirstIdStringAt | lib/Gocdb_Services/User.php:518-538 | the search over the types skips every type without an ID string |
| UserService.GetDefaultIdString | lib/Gocdb_Services/User.php:518-538 | the loop stops at the first reduced type with an ID string, else falls back to the first property, else fails |
| UserService.DefaultIdStringPrefersEarlierTypes | lib/Gocdb_Services/User.php:518-538 | the default ID string is that of the earliest listed type the user has one for |
| UserService.ValidateUniqueIdString | lib/Gocdb_Services/User.php:839-845 | passes exactly for an empty ID string or one no DN and no property holds |
| UserService.ValidateAuthType | lib/Gocdb_Services/User.php:827-831 | the loop passes exactly for a type in the full list of authentication types |
| UserService.AddKeepsConsistent | lib/Gocdb_Services/User.php:637-656 | a new property of a fresh type with a fresh value keeps the constraints, is appended to the user's properties, and leaves other users' properties unchanged |
| UserService.AddedIdStringFindsUser | lib/Gocdb_Services/User.php:600-657 | after an add, the new ID string finds the user and is its ID string of that type |
| UserService.NewPropertyHeld | lib/Gocdb_Services/User.php:637-656 | after an add, the user holds the new (type, ID string) |
| UserService.AddUserPropertyLogic | lib/Gocdb_Services/User.php:600-657 | after trimming, succeeds exactly when the ID string is free, the type is valid, the user has no property of that type and the limit is kept; the result is the state with that property appended; a taken ID string and an invalid type each give their error |
| UserService.HasDuplicateName | lib/Gocdb_Services/User.php:619-624 | the loop over the user's properties reports a duplicate exactly when the user has a property of that type |
| UserService.JoinNewProperty | lib/Gocdb_Services/User.php:619-656 | with a valid ID string and type, succeeds exactly when the type is new to the user, the limit is kept and the value is not held, and then appends exactly the new row |
| UserService.AddUserPropertyInTx | lib/Gocdb_Services/User.php:574-592 | succeeds exactly when the portal check and the authorisation pass and the add is allowed |
| UserService.AddUserProperty | lib/Gocdb_Services/User.php:574-592 | commits exactly the added property when permitted and allowed, and otherwise leaves the store unchanged |
| UserService.EditedRowCompatible | lib/Gocdb_Services/User.php:785-820 | an edit that passes validation meets the row constraints with every other row |
| UserService.EditKeepsConsistent | lib/Gocdb_Services/User.php:762-775 | an edit that passes validation keeps every constraint |
| UserService.EditKeepsOwners | lib/Gocdb_Services/User.php:762-775 | an edit keeps the user's property count, holds the edited row, and changes no other user's properties |
| UserService.EditUserPropertyLogic | lib/Gocdb_Services/User.php:762-820 | succeeds exactly when the property is the user's, something changes, a changed ID string is free, the type is valid and a changed type is new to the user; a foreign property and an unchanged pair give their errors |
| UserService.ApplyEdit | lib/Gocdb_Services/User.php:772-819 | once the earlier checks pass, succeeds exactly when a changed type is new to the user and the flush accepts the value, and then the state holds exactly the edited row, consistent |
| UserService.EditUserProperty | lib/Gocdb_Services/User.php:734-752 | commits exactly the edited row when permitted and allowed, and otherwise leaves the store unchanged |
| UserService.DeleteUserPropertyLogic | lib/Gocdb_Services/User.php:881-896 | fails for a foreign property and for a user's last property; otherwise removes exactly that row, keeps the constraints, leaves the user at least one property and other users unchanged |
| UserService.DeletePropertyLemma | lib/Gocdb_Services/User.php:881-896 | removing one of at least two properties keeps the constraints and leaves the owner a property |
| UserService.DeleteUserProperty | lib/Gocdb_Services/User.php:854-872 | commits the deletion exactly when permitted, owned and not the last; otherwise the store is unchanged |
| UserService.MigrateUserCredentials | lib/Gocdb_Services/User.php:668-705 | succeeds exactly when permitted, the new ID string is the user's DN, and the add is allowed once that DN is cleared; the result is the cleared DN plus the new property |
| UserService.MigrateInTx | lib/Gocdb_Services/User.php:682-705 | the transaction succeeds exactly when the add is allowed once the DN is cleared, and yields the cleared state plus the new row, consistent |
| UserService.ClearedDnFinds | lib/Gocdb_Services/User.php:682-686 | clearing a user's DN leaves every id finding the same user, the cleared one differing only in its DN |
| UserService.MigrationFreesOwnDn | lib/Gocdb_Services/User.php:668-705 | a DN only its owner holds is taken before the DN is cleared and free after it |
| UserService.DeleteUserInTx | lib/Gocdb_Services/User.php:403-418 | succeeds exactly when permitted; then the user, its properties and the requests naming it are gone and other users keep theirs |
| UserService.DeleteUser | lib/Gocdb_Services/User.php:403-418 | commits exactly that removal when permitted, and otherwise leaves the store unchanged |
| LinkIdentityService.GetLinkIdentityRequestByIdString | lib/Gocdb_Services/LinkIdentity.php:133-145 | null exactly when no request names the ID string as primary or secondary; a single result names it and is the only one |
| LinkIdentityService.GetLinkIdentityRequestByConfirmationCode | lib/Gocdb_Services/LinkIdentity.php:152-163 | null exactly when no request has the code; a single result has it and is the only one |
| LinkIdentityService.LookupPrimaryUser | lib/Gocdb_Services/LinkIdentity.php:17-25 | the primary user holds the ID string under that type or as its DN; "not found" exactly when both lookups give null; the non-unique error exactly when no single user holds the ID string under that type and two or more users carry it as their DN |
| LinkIdentityService.RequestType | lib/Gocdb_Services/LinkIdentity.php:69-74 | `recover` exactly when the two types are equal, `link` exactly when they differ |
| LinkIdentityService.ComposeEmail | lib/Gocdb_Services/LinkIdentity.php:176-226 | one subject per request type, a deletion warning exactly for a registered requester, and an error for any other type |
| LinkIdentityService.RequestEmailComposed | lib/Gocdb_Services/LinkIdentity.php:69-91 | the request type chosen always yields an email, with the recovery subject exactly when the types are equal |
| LinkIdentityService.UserByPrinciple | lib/Gocdb_Services/User.php:72-83 | a user is found exactly for a non-empty ID string some property holds, and it holds it |
| LinkIdentityService.NewRequestFound | lib/Gocdb_Services/LinkIdentity.php:49-86 | once earlier requests naming the ID string are removed and the new one appended, the lookup by that ID string finds exactly the new one |
| LinkIdentityService.WithFewerRequestsValid | lib/Gocdb_Services/LinkIdentity.php:53-54 | removing requests keeps every constraint |
| LinkIdentityService.RemovePreviousRequest | lib/Gocdb_Services/LinkIdentity.php:49-61 | fails only on a non-unique lookup; otherwise the requests naming the ID string are gone and nothing else changed |
| LinkIdentityService.PersistRequest | lib/Gocdb_Services/LinkIdentity.php:83-98 | commits the appended request exactly when its user columns are free and the mail goes out; otherwise the requests are unchanged |
| LinkIdentityService.NewLinkIdentityRequest | lib/Gocdb_Services/LinkIdentity.php:13-99 | a missing primary user, a wrong email and a request from the primary account itself each fail and change nothing; success implies every check passed and the requests are the old ones without any naming the current ID string, plus the new request, which the lookup then finds; it succeeds exactly when `RequestFileable` holds (every check passes, the earlier request is unambiguous and the user columns are free) and the mail is delivered |
| LinkIdentityService.FileRequest | lib/Gocdb_Services/LinkIdentity.php:49-98 | after the checks: succeeds exactly when the earlier-request lookup is not ambiguous, the new row's user columns are free once earlier requests naming the ID string are gone, and the mail goes out; on success the requests are the old ones without any naming the ID string, plus the new row, which the lookup finds; a failure leaves the requests as they were or only with the earlier request removed |
| LinkIdentityService.PrimaryUserOf | lib/Gocdb_Services/LinkIdentity.php:266 | the request's primary user exists |
| LinkIdentityService.DeleteSecondaryUser | lib/Gocdb_Services/LinkIdentity.php:305-309 | succeeds exactly when there is no registered requester or the requester passes the portal check; the requester's account is the only one removed, every other user keeps its properties, and the primary user survives |
| LinkIdentityService.WithoutRequest | lib/Gocdb_Services/LinkIdentity.php:311 | removing the request keeps the constraints and touches nothing else |
| LinkIdentityService.ConfirmIdentityLinkingInTx | lib/Gocdb_Services/LinkIdentity.php:277-317 | succeeds exactly when the portal check on the primary passes, a legacy DN can be added, the requester can be deleted and the requester's identifier can then be added; the result is the state with the legacy DN added, requester and request gone and the identifier added; linking to a legacy account fails; recovery over an existing property of that type fails |
| LinkIdentityService.AddLegacyDn | lib/Gocdb_Services/LinkIdentity.php:289-302 | only a legacy account being linked changes; it succeeds exactly when the portal check passes and the DN can be added as a property of the primary type, giving the state with that property |
| LinkIdentityService.LinkRequester | lib/Gocdb_Services/LinkIdentity.php:305-316 | succeeds exactly when the primary passes the portal check, the requester can be deleted and the identifier can be added after the requester is gone; the result is that state, consistent, without the request and with the primary holding the identifier |
| LinkIdentityService.AddLegacyDnCorrected | lib/Gocdb_Services/LinkIdentity.php:300-302 | with the DN cleared first: only a legacy account being linked changes; it succeeds exactly when the portal check passes and the DN can be added once cleared, and the primary then holds it under the primary type |
| LinkIdentityService.ConfirmIdentityLinkingInTxCorrected | lib/Gocdb_Services/LinkIdentity.php:297-317 | with the legacy step corrected: succeeds exactly when `IdentityLinkableCorrected` holds (the portal check on the primary, the DN addable once cleared, the requester removable, the requester's identifier addable) and the result is `IdentityLinkedCorrected`; on success the state is consistent, the request and the requester are gone, and the primary holds the requester's identifier and, for a legacy account, its old DN under the primary type |
| LinkIdentityService.LegacyLinkCorrectedAddable | lib/Gocdb_Services/LinkIdentity.php:300-302 | a legacy DN carried by no other user and no property, of a valid new type within the limit, is refused as written and accepted once the DN is cleared, so `LegacyDnAddable` fails and `LegacyDnAddableCorrected` holds |
| LinkIdentityService.LegacyDnCorrectedUsers | lib/Gocdb_Services/LinkIdentity.php:300-308 | moving the legacy DN changes the primary user only in its DN, so the later portal check on the primary and the requester's deletion decide as before |
| LinkIdentityService.PrimaryUserKept | lib/Gocdb_Services/LinkIdentity.php:315 | the user the last `addUserProperty` edits is the request's primary user, unchanged |
| LinkIdentityService.LegacyLinkNotLinkable | lib/Gocdb_Services/LinkIdentity.php:289-302 | for a legacy account with a trimmed, non-empty DN, a link is never confirmable, since that DN counts as registered |
| LinkIdentityService.RecoveryOverExistingTypeNotLinkable | lib/Gocdb_Services/LinkIdentity.php:282-315 | a recovery is never confirmable when the primary already has a property of that type, although the comment promises an overwrite |
| LinkIdentityService.IdentityLinkedFrame | lib/Gocdb_Services/LinkIdentity.php:297-317 | a confirmed link removes only the requester's account; every other user keeps its properties; the primary's properties gain the legacy DN (if any) and then the identifier; the requests kept are exactly those not naming the requester, less the confirmed one |
| LinkIdentityService.LegacyDnOwners | lib/Gocdb_Services/LinkIdentity.php:301-302 | adding a legacy DN appends one row to the primary's properties and changes no other user's |
| LinkIdentityService.WithoutRequesterOwners | lib/Gocdb_Services/LinkIdentity.php:306-311 | removing the requester and the request changes no other user's properties |
| LinkIdentityService.ConfirmIdentityLinking | lib/Gocdb_Services/LinkIdentity.php:256-324 | an unknown code and a mismatched current ID fail with their errors; succeeds exactly when the code is unique, the current ID is the requester's and the transaction can succeed, and then commits exactly the state that transaction describes; the code no longer works; a failure leaves the store unchanged |
| LinkAccountService.Validate | lib/Gocdb_Services/LinkAccount.php:14-32 | passes only for a user with that email holding the ID string; "not found" exactly when both lookups give null; once found, passes exactly when the email matches |
| LinkAccountService.GetLinkAccountRequestByIdString | lib/Gocdb_Services/LinkAccount.php:147-159 | null exactly when no request names the ID string; a single result names it and is the only one |
| LinkAccountService.GetLinkAccountRequestByConfirmationCode | lib/Gocdb_Services/LinkAccount.php:166-177 | null exactly when no request has the code; a single result has it and is the only one |
| LinkAccountService.GetLinkAccountRequestByUserId | lib/Gocdb_Services/LinkAccount.php:127-139 | null exactly when no request has that primary user; a single result has it and is the only one |
| LinkAccountService.ComposeEmail | lib/Gocdb_Services/LinkAccount.php:189-219 | the linking subject for `link`, the recovery subject for `recover`, an error for anything else |
| LinkAccountService.NewRequestFound | lib/Gocdb_Services/LinkAccount.php:70-101 | after removal and append, the lookup by the current ID string finds exactly the new request |
| LinkAccountService.RemovePreviousRequest | lib/Gocdb_Services/LinkAccount.php:70-82 | fails only on a non-unique lookup; otherwise the requests naming the ID string are gone and nothing else changed |
| LinkAccountService.PersistRequest | lib/Gocdb_Services/LinkAccount.php:97-112 | commits the appended request exactly when its user columns are free and the mail goes out; otherwise the requests are unchanged |
| LinkAccountService.NewLinkAccountRequest | lib/Gocdb_Services/LinkAccount.php:39-113 | a failed validation is returned unchanged and changes nothing; on success the new request (with no same-user check) replaces any naming the current ID string, and the lookup finds it; conversely the primary found with that email, the portal check passing, an unambiguous earlier request, free user columns and a delivered mail give success |
| LinkAccountService.FileRequest | lib/Gocdb_Services/LinkAccount.php:70-112 | after the checks: succeeds exactly when the earlier-request lookup is not ambiguous, the new row's user columns are free once earlier requests naming the ID string are gone, and the mail goes out; on success the requests are the old ones without any naming the ID string, plus the new row, which the lookup finds; a failure leaves the requests as they were or only with the earlier request removed |
| LinkAccountService.PrimaryUserOf | lib/Gocdb_Services/LinkAccount.php:256 | the request's primary user exists |
| LinkAccountService.NamedIndex | lib/Gocdb_Services/LinkAccount.php:290 | finds a row of the user with that type, or shows that none exists |
| LinkAccountService.NamedIndexHasProperty | lib/Gocdb_Services/LinkAccount.php:290 | a row is found exactly when the user has a property of that type |
| LinkAccountService.UpdateKeepsOthers | lib/Gocdb_Services/LinkAccount.php:290 | overwriting one row keeps every other row |
| Orm.HeldRowKept | lib/Gocdb_Services/LinkAccount.php:290-308 | an identifier survives any step that keeps the user's rows of that type |
| LinkAccountService.SharedIdStringInconsistent | lib/Doctrine/entities/UserProperty.php:35 | two users holding the same ID string violate the unique keyValue column |
| LinkAccountService.SetIdentifier | lib/Gocdb_Services/LinkAccount.php:290-297 | fails exactly when overwriting is prevented and the user has that type; on success the user holds the pair and every other row is kept |
| LinkAccountService.ReplaceLegacyDn | lib/Gocdb_Services/LinkAccount.php:294 | the primary user's DN becomes its id as a string, and nothing else changes |
| LinkAccountService.UpdatePrimaryUser | lib/Gocdb_Services/LinkAccount.php:278-301 | fails exactly when linking over an existing property of the secondary type; on success the primary holds the secondary identifier, and a legacy primary gets its DN replaced and, when linking, its old ID string as a property; every property except the primary's rows of the types set is kept; no other user and no request changes |
| LinkAccountService.RequesterClash | lib/Gocdb_Services/LinkAccount.php:290-309 | when the requester still holds its ID string, adding it to the primary breaks the unique keyValue column before the removal |
| LinkAccountService.RemoveRequester | lib/Gocdb_Services/LinkAccount.php:303-308 | the requester's account and the request are removed, constraints kept, and a different primary user and its properties survive |
| LinkAccountService.ConfirmAccountLinkingInTx | lib/Gocdb_Services/LinkAccount.php:267-310 | succeeds exactly when the primary user's update is allowed and leaves the constraints met, and the result is that update with the requester and request removed; a distinct primary then holds the new identifier; a legacy primary has its DN replaced by its id; linking over an existing type fails; under the intended reading of the undefined `addProperties` and type getters (the code as written throws before the flush), a registered requester makes the flush fail and a self-request deletes the account |
| LinkAccountService.AccountLinkedFrame | lib/Gocdb_Services/LinkAccount.php:286-310 | a confirmed link keeps every user but the primary and the requester, every property but the requester's and the primary's rows it sets, and every request not naming the requester except the confirmed one |
| LinkAccountService.ConfirmAccountLinking | lib/Gocdb_Services/LinkAccount.php:246-316 | an unknown code, a non-unique code and a mismatched current ID fail with their errors; succeeds exactly when the code is unique, the portal check passes, the current ID is the requester's and the transaction can succeed, and then commits exactly its state; the code no longer works; a failure leaves the store unchanged |
| LinkIdentityController.OtherProperties | htdocs/web_portal/controllers/user/link_identity.php:54-58 | the loop keeps exactly the properties whose value is not the current ID string, in order |
| LinkIdentityController.OtherPropertiesAllButCurrent | htdocs/web_portal/controllers/user/link_identity.php:51-61 | for a signed-in user, the list is every property but the one in use, one fewer than the user has |
| LinkIdentityController.Draw | htdocs/web_portal/controllers/user/link_identity.php:27-65 | an empty principle gives the error page; `REGISTERED` is true exactly when the ID string is held; the rejection page is shown exactly for a user with more than one property, with the other properties listed |
| LinkIdentityController.RequestText | htdocs/web_portal/controllers/user/link_identity.php:102-107 | 'account recovery' exactly when the types are equal, else 'identity linking' |
| LinkIdentityController.RequestTextMatchesRequestType | htdocs/web_portal/controllers/user/link_identity.php:102-107 | the page announces a recovery exactly when the service's request type is 'recover' |
| LinkIdentityController.Submit | htdocs/web_portal/controllers/user/link_identity.php:67-109 | as written: an empty principle and an unchanged ID string are refused; the page is accepted exactly when both guards pass and `RequestFileable` holds for the swapped arguments, with the mail delivered; an accepted request looked up the primary by the submitted type and matched the current ID string as the email; users, properties and account requests never change, and an error page leaves the identity requests as they were or without those naming the form's ID string |
| LinkIdentityController.SwappedArgumentsMissPrimary | htdocs/web_portal/controllers/user/link_identity.php:92 | for a registered X.509 user, the intended lookup finds the user and the lookup the swapped arguments make does not |
| LinkIdentityController.SubmitCorrected | htdocs/web_portal/controllers/user/link_identity.php:67-109 | the page is accepted exactly when both guards pass and `RequestFileable` holds for the arguments in signature order, with the mail delivered; an accepted request was made for the primary named on the form, with the form's email, and filed under the current ID string with both types; an error page leaves the identity requests as they were or without those naming the current ID string, and nothing else changes |
| LinkIdentityController.LinkIdentity | htdocs/web_portal/controllers/user/link_identity.php:12-21 | as written: a read-only portal refuses everything; drawing changes nothing; a POST page is accepted exactly when `Submit` accepts it; an accepted page means the primary was found by the submitted type taken as ID string and a request was filed under the form's ID string; an error page changes at most the identity requests, as `Submit` states |
| LinkIdentityController.LinkIdentityCorrected | htdocs/web_portal/controllers/user/link_identity.php:12-21 | with the submission corrected: a read-only portal refuses everything; drawing changes nothing; a POST page is accepted exactly when `SubmitCorrected` accepts it; an accepted page means the primary named on the form was found and a request was filed under the current ID string; an error page changes at most the identity requests |
| DeleteUserPropertyController.CurrentIdentifierKept | htdocs/web_portal/controllers/user/delete_user_property.php:66-69 | deleting a property other than the one holding the current ID string leaves that ID string held |
| DeleteUserPropertyController.DeleteProperty | htdocs/web_portal/controllers/user/delete_user_property.php:30-80 | an unregistered user, a missing user and the current identifier are refused; success holds exactly when every guard and the service's checks pass (registered, portal check, user found, permitted, property found, owned, not the current identifier, not the last), and the state is then the service's deletion; the current ID string stays held; a failure changes nothing |
| GetNgiQuery.PlanPaging | lib/Gocdb_Services/PI/GetNGI.php:99-148 | default paging forces paging; a next cursor gives `id > c`, ascending, and clears the previous cursor; otherwise a previous cursor gives `id < c`, descending, and clears the next; otherwise both are cleared; only paging limits to the page size; the cursor is bound at position 0 |
| GetNgiQuery.Select | lib/Gocdb_Services/PI/GetNGI.php:119-148 | the selected ids are the first min(limit, n) of the n admitted stored ids, from the low end ascending and from the high end descending; all of them when there is no limit |
| GetNgiQuery.NextPageFollowsCursor | lib/Gocdb_Services/PI/GetNGI.php:125-148 | paging forward gives at most a page of ids, all above the cursor, ascending |
| GetNgiQuery.PrevPagePrecedesCursor | lib/Gocdb_Services/PI/GetNGI.php:131-148 | paging back gives at most a page of ids, all below the cursor, descending |
| GetNgiQuery.UnpagedSelectsAll | lib/Gocdb_Services/PI/GetNGI.php:119-148 | without paging the query returns every NGI in ascending id order |
| GetNgiQuery.RenderingGuardRejectsSupported | lib/Gocdb_Services/PI/GetNGI.php:218-222 | the guard in `setSelectedRendering` holds for both supported renderings |
| GetNgiQuery.GetNgi.constructor | lib/Gocdb_Services/PI/GetNGI.php:41-70 | GOCDB_XML rendering, pages of 500, no default paging, no cursors, no results |
| GetNgiQuery.GetNgi.SetDefaultPaging | lib/Gocdb_Services/PI/GetNGI.php:384-389 | stores a boolean and refuses anything else without change |
| GetNgiQuery.GetNgi.SetPageSize | lib/Gocdb_Services/PI/GetNGI.php:403-408 | stores an integer and refuses anything else without change |
| GetNgiQuery.GetNgi.CreateQuery | lib/Gocdb_Services/PI/GetNGI.php:94-188 | the fields and the query built are those of the paging decision |
| GetNgiQuery.GetNgi.ExecuteQuery | lib/Gocdb_Services/PI/GetNGI.php:194-203 | the page information then reports the first id as previous cursor, the last id as next cursor and the result size as count |
| GetNgiQuery.GetNgi.SetSelectedRendering | lib/Gocdb_Services/PI/GetNGI.php:218-223 | as written, always throws and never changes the rendering |
| GetNgiQuery.GetNgi.SetSelectedRenderingCorrected | lib/Gocdb_Services/PI/GetNGI.php:213-223 | selects exactly the supported renderings and refuses others without change |
| GetNgiQuery.GetNgi.RenderingOutput | lib/Gocdb_Services/PI/GetNGI.php:228-236 | renders GOCDB XML for GOCDB_XML, GLUE2 XML for GLUE2_XML, and fails for any other style |
| GetNgiQuery.ValidRenderingRenders | lib/Gocdb_Services/PI/GetNGI.php:228-248 | with a supported rendering selected, rendering never fails |

## Left out

- The Doctrine entity manager, DQL and query building are replaced by functions over the stored rows. This covers `persist`, `merge`, `remove`, `flush`, `ParameterBuilder`, `ScopeQueryBuilder` and the paging helpers. `getOneOrNullResult` becomes `Orm.Lookup`.
- Transactions are modelled only by their effect: a service commits its new state or leaves the store as it was.
- Within a flush, Doctrine issues inserts and updates before deletions. The unique columns are therefore checked against the state before the removals of that flush. `LinkAccountService.ConfirmAccountLinkingInTx` follows this order.
- Mail is a boolean parameter, `mailDelivered`. This covers `mail()`, `sendConfirmationEmail`, the portal URL and the email bodies. Only the subject chosen per request type is kept.
- The confirmation code is a parameter. Generating it from `rand` and `sha1` is not modelled.
- The signed-in principle and authentication type are parameters. They come from `Get_User_Principle` and `Get_User_AuthType`.
- The portal's read-only flag, the list of authentication token classes and the identifier limit are configuration parameters. So is `checkPortalIsNotReadOnly`, whose body is not part of this model.
- `mergeRoles` is not part of this model. Confirmation leaves the primary user's roles as they were.
- `getUserFromDn`: the source calls a method that does not exist. `LinkIdentity.php:21` and `LinkAccount.php:22` and `:47` call it, and the User service does not define it. As written, each of these calls throws a PHP `Error`, which `catch(\Exception)` does not catch. The model follows the intended reading: the certificate DN lookup of `User.php:56`.
- `getProperty`: the source calls a method that does not exist. `delete_user_property.php:49` calls it, and the User service does not define it, so as written the call throws a PHP `Error`. The model follows the intended reading: the lookup by property id of `User.php:455`.
- `addProperties`: the source calls a method that does not exist. `LinkAccount.php:290` and `:297` call it, and the User service does not define it. As written, the call throws a PHP `Error`, so `confirmAccountLinking` never reaches its flush. The model follows the intended reading. `LinkAccountService.SetIdentifier` takes it as: add the pair, or overwrite the existing row of that type when overwriting is allowed. The table constraints are checked on flush, with no further service validation.
- `getPrimaryAuthType` and `getSecondaryAuthType`: the source calls methods that do not exist. `LinkAccount.php:271`, `:275` and `:279` call them, and `LinkAccountRequest` does not define them. As written, these calls throw a PHP `Error`, so `confirmAccountLinking` never gets past them. The model follows the intended reading: `LinkAccountService.ConfirmAccountLinking` takes the two types as parameters.
- The `LinkAccountRequest` constructor receives a seventh argument in `newLinkAccountRequest`. PHP ignores it, and so does the model.
- The fourth argument that `confirmIdentityLinking` passes to `addUserProperty` is ignored, as in PHP. A recovery therefore goes through the duplicate-type check.
- XML rendering is left out: `getXml`, `getGlue2XML` and the URL authority. `RenderingOutput` names the rendering it would produce.
- `getSelectedRendering` is left out. It returns `$this->$selectedRenderingStyle`, where `$selectedRenderingStyle` is an undefined local variable, so it names no property. `validateParameters` is left out because it belongs to the parameter helper.
- The NGI query is modelled by its cursor filter, direction, limit and binds. The scope and name conditions that `ScopeQueryBuilder` and `ParameterBuilder` add are left out.
- `GetNgiQuery.Select` does not model a database that returns rows out of id order. It assumes the ids are given ascending.
- The other User service operations are left out: `editUser`, `register`, `getUsers`, `getPropertyByIdString` and `updateLastLoginTime`. They are outside the identity model.
- `UserService.AddUserPropertyLogic`: the schema validation of the new property (`validate($validateArray, 'userproperty')`, which delegates to the Validate service) is taken to pass. The Validate service is not part of this model, so "succeeds exactly when" holds for values that pass it.
- `UserService.EditUserPropertyLogic`: the same schema validation of the edited property is taken to pass, for the same reason.
- The views, the JavaScript, the one-off scripts and the thin controllers are not modelled.

## Findings

| source | as written | input that shows it | evidently intended | confidence | as-written member | corrected member |
|---|---|---|---|---|---|---|
| htdocs/web_portal/controllers/user/link_identity.php:92 | calls `newLinkIdentityRequest($primaryIdString, $currentIdString, $primaryAuthType, $currentAuthType, $givenEmail)` against the signature `($currentIdString, $givenEmail, $primaryIdString, $primaryAuthType, $currentAuthType)`, so the primary user is looked up with the form's auth type as ID string | a registered user holding `/CN=alice` under `X.509`, signed in through `EGI Proxy IdP`, submitting `/CN=alice`, `X.509` and the right email: the lookup by ID string `X.509` finds no one | pass the arguments in the order of the signature | high (not executed) | LinkIdentityController.Submit, LinkIdentityController.LinkIdentity, LinkIdentityController.SwappedArgumentsMissPrimary | LinkIdentityController.SubmitCorrected, LinkIdentityController.LinkIdentityCorrected |
| lib/Gocdb_Services/LinkIdentity.php:300-302 | `confirmIdentityLinking` adds a legacy account's certificate DN as a property without clearing the DN, and `addUserProperty` refuses an ID string that a DN still carries (`User.php:839-845`), so linking to a legacy account always fails | a user with certificate DN `/CN=alice` and no properties, and a request from a new identity under `EGI Proxy IdP` naming `/CN=alice` under `X.509`: the first `addUserProperty` throws | clear the DN first, as `migrateUserCredentials` does (`User.php:682-686`) | high (not executed) | LinkIdentityService.ConfirmIdentityLinkingInTx, LinkIdentityService.LegacyLinkNotLinkable | LinkIdentityService.ConfirmIdentityLinkingInTxCorrected, LinkIdentityService.AddLegacyDnCorrected, LinkIdentityService.LegacyLinkCorrectedAddable |
| lib/Gocdb_Services/PI/GetNGI.php:218-223 | `if ($renderingStyle != 'GOCDB_XML' \|\| $renderingStyle != 'GLUE2_XML')` holds for every string, so `setSelectedRendering` always throws | `setSelectedRendering('GLUE2_XML')` throws although `GLUE2_XML` is supported | throw only for a style outside `getSupportedRenderings()` (`&&`) | high (not executed) | GetNgiQuery.GetNgi.SetSelectedRendering, GetNgiQuery.RenderingGuardRejectsSupported | GetNgiQuery.GetNgi.SetSelectedRenderingCorrected |
