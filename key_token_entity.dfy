/**
 * The `key_tokens` document: one per user, holding the user's recent RSA
 * public keys and the encrypted third-party session artifact with the
 * material needed to open it. No private key has a field here.
 */
module KeyTokenEntity {
  import opened Wrappers
  import opened Crypto

  /** How many public keys the history keeps. */
  const MaxHistory: nat := 3

  /** The optional metadata bag, kept opaque. */
  type Metadata = map<string, string>

  datatype KeyToken = KeyToken(
    user: string,                       // system user id
    studentId: string,                  // `student_id`, the provider's student id
    publicKeyHistory: seq<PublicKey>,   // newest first
    encryptedToken: Ciphertext,
    nonce: string,
    iv: string,
    authTag: AuthTag,
    expiresAt: int,
    metadata: Option<Metadata>)

  /** A document as handed to the schema: every field may be absent. */
  datatype Document = Document(
    user: Option<string>,
    studentId: Option<string>,
    publicKeyHistory: Option<seq<PublicKey>>,
    encryptedToken: Option<Ciphertext>,
    nonce: Option<string>,
    iv: Option<string>,
    authTag: Option<AuthTag>,
    expiresAt: Option<int>,
    metadata: Option<Metadata>)

  /** A required string path is satisfied by a present, non-empty value. */
  predicate RequiredString(v: Option<string>) {
    v.Some? && v.value != ""
  }

  /** The paths the schema marks required that `d` leaves unsatisfied, in schema order. */
  function MissingPaths(d: Document): (paths: seq<string>)
    ensures paths == [] <==>
      RequiredString(d.user) && RequiredString(d.studentId) && d.encryptedToken.Some? &&
      RequiredString(d.nonce) && RequiredString(d.iv) && d.authTag.Some? && d.expiresAt.Some?
  {
    (if RequiredString(d.user) then [] else ["user"]) +
    (if RequiredString(d.studentId) then [] else ["student_id"]) +
    (if d.encryptedToken.Some? then [] else ["encryptedToken"]) +
    (if RequiredString(d.nonce) then [] else ["nonce"]) +
    (if RequiredString(d.iv) then [] else ["iv"]) +
    (if d.authTag.Some? then [] else ["authTag"]) +
    (if d.expiresAt.Some? then [] else ["expiresAt"])
  }

  /**
   * Casting a document through the schema: it fails naming every unsatisfied
   * required path; otherwise the history defaults to the empty sequence and
   * the metadata stays optional.
   */
  function Hydrate(d: Document): (r: Result<KeyToken, seq<string>>)
    ensures r.Failure? <==> MissingPaths(d) != []
    ensures r.Failure? ==> r.error == MissingPaths(d)
    ensures r.Success? ==> r.value.publicKeyHistory == d.publicKeyHistory.GetOr([])
    ensures r.Success? ==> r.value.metadata == d.metadata
  {
    if MissingPaths(d) != [] then Failure(MissingPaths(d))
    else Success(KeyToken(d.user.value, d.studentId.value, d.publicKeyHistory.GetOr([]),
                          d.encryptedToken.value, d.nonce.value, d.iv.value, d.authTag.value,
                          d.expiresAt.value, d.metadata))
  }

  /** The document that stores record `k`. */
  function ToDocument(k: KeyToken): Document {
    Document(Some(k.user), Some(k.studentId), Some(k.publicKeyHistory), Some(k.encryptedToken),
             Some(k.nonce), Some(k.iv), Some(k.authTag), Some(k.expiresAt), k.metadata)
  }

  /** A record passes the schema's required checks. */
  predicate SchemaValid(k: KeyToken) {
    k.user != "" && k.studentId != "" && k.nonce != "" && k.iv != ""
  }

  /** Storing a record and casting it back is the identity exactly for schema-valid records. */
  lemma HydrateToDocument(k: KeyToken)
    ensures Hydrate(ToDocument(k)) == (if SchemaValid(k) then Success(k) else Failure(MissingPaths(ToDocument(k))))
  {
  }
}
