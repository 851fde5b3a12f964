/** What every store operation is given besides its data: the signed-in user and how the backend answers. */
module Session {

  /** The signed-in user's id; the pages hold `user` as null or an object carrying this id. */
  type UserId = string

  /**
   * How the hosted backend answers one request: normally, with a failed read
   * (an error other than "no rows"), or with a failed update or insert.
   */
  datatype Backend = Healthy | FetchFails | WriteFails
}
