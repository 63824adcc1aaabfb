/** The store of webhook idempotency keys. */
module Idempotency {
  import opened Options

  type Key = string
  type Body = string

  datatype Status = Processing | Completed | Failed

  datatype Response = Response(code: int, body: Body)

  datatype Record = Record(status: Status, response: Response)

  const Blank := Response(200, "")

  type Records = map<Key, Record>

  predicate Taken(records: Records, key: Key) {
    key in records && (records[key].status.Processing? || records[key].status.Completed?)
  }

  function Started(records: Records, key: Key): Records {
    if Taken(records, key) then records else records[key := Record(Processing, Blank)]
  }

  function Stored(records: Records, key: Key, response: Response): Records {
    records[key := Record(Completed, response)]
  }

  function Released(records: Records, key: Key): Records {
    if key in records && records[key].status.Processing? then records - {key} else records
  }

  function Cached(records: Records, key: Key): Option<Response> {
    if key in records && records[key].status.Completed? then Some(records[key].response) else None
  }

  class IdempotencyTracker {
    var records: Records

    constructor ()
      ensures records == map[]
    {
      records := map[];
    }

    method StartProcessing(key: Key) returns (acquired: bool)
      modifies this
      ensures acquired == !Taken(old(records), key) && records == Started(old(records), key)
    {
      if key in records {
        var rec := records[key];
        if rec.status == Processing || rec.status == Completed {
          return false;
        }
      }
      records := records[key := Record(Processing, Blank)];
      return true;
    }

    method CompleteProcessing(key: Key, code: int, body: Body)
      modifies this
      ensures records == Stored(old(records), key, Response(code, body))
    {
      if key in records {
        records := records[key := records[key].(status := Completed, response := Response(code, body))];
      } else {
        records := records[key := Record(Completed, Response(code, body))];
      }
    }

    method FailProcessing(key: Key)
      modifies this
      ensures records == Released(old(records), key)
    {
      if key in records && records[key].status == Processing {
        records := records - {key};
      }
    }

    method GetCachedResponse(key: Key) returns (r: Option<Response>)
      ensures r == Cached(records, key)
    {
      if key in records && records[key].status == Completed {
        return Some(records[key].response);
      }
      return None;
    }
  }
}
