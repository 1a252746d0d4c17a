/** The external services every handler talks to, reduced to the values they return: the
    identity provider (sign-up, sign-in, sign-out, token resolution) and the completion
    service (a transcript in, generated text and a usage count out). The session the
    identity client keeps is part of the store, not a service answer. */
module Services {
  import opened Js

  /** One role-tagged entry of a transcript sent to the completion service */
  datatype ChatMessage = ChatMessage(role: string, content: string)

  datatype CompletionRequest = CompletionRequest(model: string, messages: seq<ChatMessage>, maxTokens: Option<nat>)

  /** The completion service's answer: the first choice's text and `usage.total_tokens`, or a failure */
  datatype Completion = Completed(text: string, totalTokens: nat) | CompletionFailed

  /** A user identity as the identity provider returns it */
  datatype AuthUser = AuthUser(id: string, email: string)

  /** `auth.getUser(token)`: an error, no user, or the identity the token belongs to */
  datatype UserLookup = UserLookupFailed | NoUser | UserFound(user: AuthUser)

  /** `auth.signUp(...)`: the new identity, with the access token of its session when the
      provider opens one at once (it does not while the address awaits confirmation) */
  datatype SignUp = SignUpFailed | SignedUp(user: AuthUser, session: Option<string>)

  /** `auth.signInWithPassword(...)` */
  datatype SignIn = SignInFailed | SignedIn(user: AuthUser, session: string)

  /** `auth.signOut()` */
  datatype SignOut = SignOutFailed | SignedOut
}
