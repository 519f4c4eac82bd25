/** A company record as the client's record model declares it. */
module CompanyRecord {
  import opened Wrappers
  import opened Json

  /** `Record`: the optional members may be absent from the object. */
  datatype Record = Record(id: int, name: string, exchange: string, ticker: string, isin: string,
                           website: Option<string>, isEditing: Option<bool>)

  /** The record as a JSON object; an absent member has no key. */
  function RecordFields(r: Record): (f: map<string, Json>)
    ensures f.Keys == {"id", "name", "exchange", "ticker", "isin"}
      + (if r.website.Some? then {"website"} else {}) + (if r.isEditing.Some? then {"isEditing"} else {})
    ensures f["id"] == JNum(r.id) && f["name"] == JStr(r.name) && f["exchange"] == JStr(r.exchange)
    ensures f["ticker"] == JStr(r.ticker) && f["isin"] == JStr(r.isin)
    ensures r.website.Some? ==> f["website"] == JStr(r.website.value)
    ensures r.isEditing.Some? ==> f["isEditing"] == JBool(r.isEditing.value)
  {
    var base := map["id" := JNum(r.id), "name" := JStr(r.name), "exchange" := JStr(r.exchange),
                     "ticker" := JStr(r.ticker), "isin" := JStr(r.isin)];
    var withSite := if r.website.Some? then base["website" := JStr(r.website.value)] else base;
    if r.isEditing.Some? then withSite["isEditing" := JBool(r.isEditing.value)] else withSite
  }
}
