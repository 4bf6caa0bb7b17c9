/** Status classification: the `validateStatus` callback of
    `ScrapeDo.sendRequest` (src/lib.ts:275-285), which decides whether the
    transport fulfils the call with the response or rejects it. */
module Status {

  /** In transparent mode every status is accepted.  Otherwise 400, 429,
      502, 503 and 504 are refused outright and the rest are accepted only
      in the 2xx range, so acceptance comes down to 2xx: 404, 3xx and 1xx
      are refused as well. */
  function ValidateStatus(status: int, transparent: bool): (accepted: bool)
    ensures transparent ==> accepted
    ensures !transparent ==> (accepted <==> 200 <= status < 300)
  {
    if transparent then true
    else if status == 502 || status == 503 || status == 504 || status == 429 || status == 400 then false
    else status >= 200 && status < 300
  }

  /** The explicitly refused codes could be dropped without changing the
      classification: each of them lies outside 2xx. */
  lemma ExplicitRefusalsAreOutside2xx(status: int)
    requires status in {400, 429, 502, 503, 504}
    ensures ValidateStatus(status, false) == (status >= 200 && status < 300)
    ensures !ValidateStatus(status, false) && ValidateStatus(status, true)
  {
  }
}
