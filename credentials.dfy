/**
 The host platform's credential vocabulary, as far as the read-only
 property-file user store uses it: the one credential type it knows,
 the credential input it is handed, and the read-only failure it raises.
 */
module Credentials {

  /** The host's name for the password credential type (`CredentialModel.PASSWORD`). */
  const PASSWORD: string := "password"

  /** A credential submitted by the host: its type and the secret the user typed. */
  datatype CredentialInput = CredentialInput(credentialType: string, challengeResponse: string)

  /** The failure thrown when a caller tries to write to a read-only store. */
  datatype ReadOnlyException = ReadOnlyException(message: string)

  /** The outcome of an operation that may throw `ReadOnlyException`. */
  datatype Result<T> = Ok(value: T) | Err(error: ReadOnlyException)
}
