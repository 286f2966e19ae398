/**
 * The customer-data handler behind the private API (private-api/lambda/customer_data/app.py): GET reads one
 * record, PUT creates or replaces one, anything else is refused. The DynamoDB table is the map `items`
 * of a `CustomerTable` object; the generated id (`uuid.uuid4()`) and the timestamp
 * (`datetime.utcnow().isoformat()`) are inputs, and `storeFails` says whether the table call
 * raises. Field values are kept as opaque strings; JSON serialisation is not modelled.
 */
module CustomerData {
  import opened Wrappers

  /** A stored record, and a JSON object in general: attribute name to value. */
  type Item = map<string, string>

  /** The request body: absent or empty, not valid JSON, or a decoded object. */
  datatype Body = Absent | Unparsable | Parsed(fields: map<string, string>)

  /** The event's `httpMethod`: no such key (so `event['httpMethod']` raises), a null value, or a name. */
  datatype HttpMethod = MethodMissing | MethodNull | Method(name: string)

  /** `pathParameters` is None when missing or null. */
  datatype ApiEvent = ApiEvent(httpMethod: HttpMethod, pathParameters: Option<map<string, string>>, body: Body)

  datatype Response = Response(statusCode: int, headers: map<string, string>, body: map<string, string>)

  /** The headers every response carries: the content type and the three CORS headers. */
  const ResponseHeaders: map<string, string> := map[
    "Content-Type" := "application/json",
    "Access-Control-Allow-Origin" := "*",
    "Access-Control-Allow-Methods" := "GET,PUT,OPTIONS",
    "Access-Control-Allow-Headers" := "Content-Type,Authorization"]

  const RequiredFields: set<string> := {"customerId", "name", "phoneNumber", "updatedAt"}
  const OptionalFields: set<string> := {"email", "address"}

  /** `build_response(status_code, body)`. */
  function BuildResponse(statusCode: int, body: map<string, string>): (r: Response)
    ensures r.statusCode == statusCode && r.body == body
    ensures r.headers == ResponseHeaders
  {
    Response(statusCode, ResponseHeaders, body)
  }

  function MessageBody(message: string): map<string, string> {
    map["message" := message]
  }

  /** Lines 18-19 with the truthiness tests of lines 23 and 39: the path's `customerId`, when non-empty. */
  function PathCustomerId(pathParameters: Option<map<string, string>>): (id: Option<string>)
    ensures id.Some? <==> pathParameters.Some? && "customerId" in pathParameters.value && pathParameters.value["customerId"] != ""
    ensures id.Some? ==> id.value == pathParameters.value["customerId"]
  {
    if pathParameters.None? || pathParameters.value == map[] then None
    else if "customerId" !in pathParameters.value || pathParameters.value["customerId"] == "" then None
    else Some(pathParameters.value["customerId"])
  }

  /** Line 37: the decoded body, `{}` when there is none. */
  function BodyFields(body: Body): (fields: map<string, string>)
    requires !body.Unparsable?
    ensures body.Parsed? ==> fields == body.fields
    ensures body.Absent? ==> fields == map[]
  {
    if body.Parsed? then body.fields else map[]
  }

  /** `item` is the record lines 48-59 build for `customerId` from `fields` at time `updatedAt`. */
  ghost predicate IsRecordFor(item: Item, customerId: string, fields: map<string, string>, updatedAt: string) {
    "name" in fields && "phoneNumber" in fields
    && item.Keys == RequiredFields + (fields.Keys * OptionalFields)
    && item["customerId"] == customerId && item["updatedAt"] == updatedAt
    && item["name"] == fields["name"] && item["phoneNumber"] == fields["phoneNumber"]
    && (forall k :: k in OptionalFields && k in fields ==> item[k] == fields[k])
  }

  /** Lines 48-59: the required attributes, then `email` and `address` added only when the body has them. */
  method NewItem(customerId: string, fields: map<string, string>, updatedAt: string) returns (item: Item)
    requires "name" in fields && "phoneNumber" in fields
    ensures IsRecordFor(item, customerId, fields, updatedAt)
  {
    item := map[
      "customerId" := customerId,
      "name" := fields["name"],
      "phoneNumber" := fields["phoneNumber"],
      "updatedAt" := updatedAt];
    if "email" in fields {
      item := item["email" := fields["email"]];
    }
    if "address" in fields {
      item := item["address" := fields["address"]];
    }
  }

  /** The table. */
  class CustomerTable {
    var items: map<string, Item>

    /** Every stored record has the required attributes, no others but the optional ones, and is stored under its own id. */
    ghost predicate Valid()
      reads this
    {
      forall id :: id in items ==>
        RequiredFields <= items[id].Keys <= RequiredFields + OptionalFields && items[id]["customerId"] == id
    }

    constructor ()
      ensures items == map[] && Valid()
    {
      items := map[];
    }

    /** `lambda_handler(event, context)`. */
    method Handle(e: ApiEvent, generatedId: string, timestamp: string, storeFails: bool) returns (resp: Response)
      requires Valid()
      modifies this
      ensures Valid()
      ensures resp.headers == ResponseHeaders
      // The table changes only on a successful PUT.
      ensures resp.statusCode != 200 || e.httpMethod != Method("PUT") ==> items == old(items)
      // Any exception (no method, a body that is not JSON, a failing table call) is a 500.
      ensures e.httpMethod.MethodMissing? ==> resp == BuildResponse(500, MessageBody("Internal server error"))
      // A null method, like any name other than GET and PUT, is refused.
      ensures e.httpMethod.MethodNull? || (e.httpMethod.Method? && e.httpMethod.name !in {"GET", "PUT"}) ==>
        resp == BuildResponse(405, MessageBody("Method not allowed"))
      // GET
      ensures e.httpMethod == Method("GET") ==>
        var id := PathCustomerId(e.pathParameters);
        (id.None? ==> resp == BuildResponse(400, MessageBody("Missing customerId parameter")))
        && (id.Some? && storeFails ==> resp == BuildResponse(500, MessageBody("Internal server error")))
        && (id.Some? && !storeFails && id.value !in old(items) ==> resp == BuildResponse(404, MessageBody("Customer not found")))
        && (id.Some? && !storeFails && id.value in old(items) ==> resp == BuildResponse(200, old(items)[id.value]))
      // PUT
      ensures e.httpMethod == Method("PUT") && e.body.Unparsable? ==>
        resp == BuildResponse(500, MessageBody("Internal server error"))
      ensures e.httpMethod == Method("PUT") && !e.body.Unparsable? ==>
        var fields := BodyFields(e.body);
        var id := if PathCustomerId(e.pathParameters).Some? then PathCustomerId(e.pathParameters).value else generatedId;
        (!("name" in fields && "phoneNumber" in fields) ==>
           resp == BuildResponse(400, MessageBody("Missing required fields: name and phoneNumber")))
        && ("name" in fields && "phoneNumber" in fields && storeFails ==>
           resp == BuildResponse(500, MessageBody("Internal server error")))
        && ("name" in fields && "phoneNumber" in fields && !storeFails ==>
           resp == BuildResponse(200, map["message" := "Customer data saved successfully", "customerId" := id])
           && id in items && IsRecordFor(items[id], id, fields, timestamp)
           && items == old(items)[id := items[id]])
    {
      if e.httpMethod.MethodMissing? {
        // event['httpMethod'] raised a KeyError
        return BuildResponse(500, MessageBody("Internal server error"));
      }
      var httpMethod := e.httpMethod;
      var customerId := PathCustomerId(e.pathParameters);
      if httpMethod == Method("GET") {
        if customerId.None? {
          return BuildResponse(400, MessageBody("Missing customerId parameter"));
        }
        if storeFails {
          return BuildResponse(500, MessageBody("Internal server error"));
        }
        // `if not item`: an absent item, or an empty one
        if customerId.value !in items || items[customerId.value] == map[] {
          return BuildResponse(404, MessageBody("Customer not found"));
        }
        return BuildResponse(200, items[customerId.value]);
      } else if httpMethod == Method("PUT") {
        if e.body.Unparsable? {
          // json.loads raised
          return BuildResponse(500, MessageBody("Internal server error"));
        }
        var fields := BodyFields(e.body);
        var id := if customerId.Some? then customerId.value else generatedId;
        if !("name" in fields && "phoneNumber" in fields) {
          return BuildResponse(400, MessageBody("Missing required fields: name and phoneNumber"));
        }
        var item := NewItem(id, fields, timestamp);
        if storeFails {
          // put_item raised; nothing was written
          return BuildResponse(500, MessageBody("Internal server error"));
        }
        items := items[id := item];
        return BuildResponse(200, map["message" := "Customer data saved successfully", "customerId" := id]);
      } else {
        return BuildResponse(405, MessageBody("Method not allowed"));
      }
    }
  }
}
