/** Optional values: an unset cache entry, a field missing from a tag. */
module Wrappers {

  datatype Option<+T> = None | Some(value: T)
}

/**
  The printer side of a publish, lib/moonraker_web_client.py. The client
  POSTs one MMU_GATE_MAP command and returns normally only when the server
  answers HTTP 200; any other status raises, and so does a request that
  cannot complete (connection error, the 10-second timeout).
*/
module MoonrakerWebClient {

  /** What the POST to /api/printer/command came back with. */
  datatype Reply = Status(code: int) | NoReply

  /** The call returns without raising exactly on HTTP 200. */
  predicate Accepted(reply: Reply)
  {
    reply == Status(200)
  }
}
