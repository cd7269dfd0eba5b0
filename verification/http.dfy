/** The replies the route handlers send, and the status codes they use. */
module Http {
  import opened Outcomes

  const OK: nat := 200
  const BAD_REQUEST: nat := 400
  const UNAUTHORIZED: nat := 401
  const NOT_FOUND: nat := 404

  datatype Reply =
    /** `res.sendStatus(code)` */
    | SendStatus(code: nat)
    /** `res.status(code).send(body)` with a text body */
    | SendText(code: nat, body: string)
    /** `res.json({ urls })` after a gallery upload; a failed upload contributes `undefined` */
    | JsonUrls(urls: seq<Option<string>>)
    /** `res.json({ url })` after an avatar upload */
    | JsonUrl(url: Option<string>)
}
