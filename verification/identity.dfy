/** The identity carried by a signed token, and the token verifier the server relies on. */
module Identity {
  import opened Wrappers

  /** The payload of a session token: `{ userId, email }`. */
  datatype Claims = Claims(userId: string, email: string)

  /**
   `jwt.verify(token, JWT_SECRET)`, with the secret fixed: the claims of a valid,
   unexpired token, or `None` where the library throws.
   */
  type Verifier = string -> Option<Claims>
}
