/** The RPC request and response messages the services exchange with their callers. */
module Proto {
  import opened Models

  datatype CreateUserRequest = CreateUserRequest(username: string, email: string, password: string)
  datatype GetUserRequest = GetUserRequest(id: string)
  datatype UpdateUserRequest = UpdateUserRequest(id: string, username: string, email: string)
  datatype DeleteUserRequest = DeleteUserRequest(id: string)
  datatype GetUserByEmailRequest = GetUserByEmailRequest(email: string)

  datatype RegisterEmailRequest = RegisterEmailRequest(userId: string, emailAddress: string)
  datatype VerifyEmailRequest = VerifyEmailRequest(token: string)
  datatype CreateAliasRequest = CreateAliasRequest(userId: string, emailId: string, aliasPrefix: string)
  datatype GetAliasRequest = GetAliasRequest(id: string)
  datatype UpdateAliasRequest = UpdateAliasRequest(id: string, emailId: string, aliasPrefix: string)
  datatype DeleteAliasRequest = DeleteAliasRequest(id: string)
  datatype ListAliasesRequest = ListAliasesRequest(userId: string)

  /** A user as returned to callers: there is no password field. */
  datatype UserMsg = UserMsg(id: string, username: string, email: string, createdAt: Time, updatedAt: Time)
  /** An email as returned to callers: there is no token field. */
  datatype EmailMsg = EmailMsg(id: string, userId: string, address: string, verified: bool,
                               createdAt: Time, updatedAt: Time)
  datatype AliasMsg = AliasMsg(id: string, userId: string, emailId: string, aliasAddress: string,
                               createdAt: Time, updatedAt: Time)
  datatype GetUserByEmailResponse = GetUserByEmailResponse(userId: string)
  datatype DeleteUserResponse = DeleteUserResponse(success: bool)
  datatype DeleteAliasResponse = DeleteAliasResponse(success: bool)
  datatype ListAliasesResponse = ListAliasesResponse(aliases: seq<AliasMsg>)

  function UserToMsg(u: User): UserMsg {
    UserMsg(u.id, u.username, u.email, u.createdAt, u.updatedAt)
  }

  function EmailToMsg(e: Email): EmailMsg {
    EmailMsg(e.id, e.userId, e.address, e.verified, e.createdAt, e.updatedAt)
  }

  function AliasToMsg(a: Alias): AliasMsg {
    AliasMsg(a.id, a.userId, a.emailId, a.aliasAddress, a.createdAt, a.updatedAt)
  }
}
