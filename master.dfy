/**
 * The dispatcher of `master.py`: a constant table of devices keyed by the
 * hex-encoded friendly name, and the status decision of its two routes.
 * Flask's `make_response(jsonify(...), status)` becomes a `Response` value.
 */
module Master {
  import opened DeviceKeys

  /** A registered device: its network address and the HTTP methods it accepts. */
  datatype Device = Device(addr: string, methods: seq<string>)

  /** The JSON or HTML payload of a response. */
  datatype Body =
    | ErrorBody(error: string)                                             // {"error": ...}
    | MethodErrorBody(error: string, methods: seq<string>, reqMethod: string) // {"error", "methods", "req_method"}
    | DeviceBody(device: Device)                                           // {"device": ...}
    | Page(html: string)

  datatype Response = Response(body: Body, status: int)

  /** The friendly names of the registered devices. */
  const CarrotPatchName: string := "carrot patch"
  const FrontLawnName: string := "front lawn"
  const DuckPondName: string := "duck pond"

  const CarrotPatch: Device := Device("127.0.0.1:9090", ["GET", "POST"])
  const FrontLawn: Device := Device("127.0.0.1:8080", ["GET", "POST"])
  const DuckPond: Device := Device("127.0.0.1:1010", ["GET"])

  /** `DEVICES`. */
  const Devices: map<string, Device> := map[
    DeviceKey(CarrotPatchName) := CarrotPatch,
    DeviceKey(FrontLawnName) := FrontLawn,
    DeviceKey(DuckPondName) := DuckPond
  ]

  const ForbiddenPage: string :=
    "<html><h1>403 Forbidden</h1>\n<h2>Sorry, you do not have permission to access this page.</h2></html>"

  /** `hello_world`, the `/` route: always forbidden. */
  function HelloWorld(): (r: Response)
    ensures r.status == 403 && r.body.Page?
  {
    Response(Page(ForbiddenPage), 403)
  }

  /**
   * `get_device(dev_uid)` for a request made with `reqMethod`. An unknown
   * device is reported before the method is looked at.
   */
  function GetDevice(devUid: string, reqMethod: string): (r: Response)
    ensures r.status in {200, 400, 404}
    ensures r.status == 404 <==> devUid !in Devices
    ensures r.status == 404 ==> r.body == ErrorBody("Device not found")
    ensures r.status == 400 <==> devUid in Devices && reqMethod !in Devices[devUid].methods
    ensures r.status == 400 ==> r.body.MethodErrorBody? && r.body.error == "Request type not valid"
                                && r.body.methods == Devices[devUid].methods
                                && r.body.reqMethod == reqMethod
    ensures r.status == 200 <==> devUid in Devices && reqMethod in Devices[devUid].methods
    ensures r.status == 200 ==> r.body == DeviceBody(Devices[devUid])
  {
    if devUid !in Devices then
      Response(ErrorBody("Device not found"), 404)
    else if reqMethod !in Devices[devUid].methods then
      Response(MethodErrorBody("Request type not valid", Devices[devUid].methods, reqMethod), 400)
    else
      Response(DeviceBody(Devices[devUid]), 200)
  }

  /** A dictionary display with three distinct keys holds each of its three entries. */
  lemma ThreeEntries<V>(ka: string, kb: string, kc: string, va: V, vb: V, vc: V)
    requires ka != kb && ka != kc && kb != kc
    ensures var m := map[ka := va, kb := vb, kc := vc];
            m.Keys == {ka, kb, kc} && m[ka] == va && m[kb] == vb && m[kc] == vc
  {
  }

  /** The table has exactly the three friendly names' keys, each with its own record. */
  lemma DevicesTable()
    ensures Devices.Keys == {DeviceKey(CarrotPatchName), DeviceKey(FrontLawnName), DeviceKey(DuckPondName)}
    ensures Devices[DeviceKey(CarrotPatchName)] == CarrotPatch
    ensures Devices[DeviceKey(FrontLawnName)] == FrontLawn
    ensures Devices[DeviceKey(DuckPondName)] == DuckPond
  {
    DeviceKeyInjective(CarrotPatchName, FrontLawnName);
    DeviceKeyInjective(CarrotPatchName, DuckPondName);
    DeviceKeyInjective(FrontLawnName, DuckPondName);
    ThreeEntries(DeviceKey(CarrotPatchName), DeviceKey(FrontLawnName), DeviceKey(DuckPondName),
                 CarrotPatch, FrontLawn, DuckPond);
  }

  /** How a registered device answers: 200 for an allowed method, 400 with the allowed list otherwise. */
  lemma RegisteredAnswers(uid: string, d: Device, m: string)
    requires uid in Devices && Devices[uid] == d
    ensures GetDevice(uid, m) == if m in d.methods then Response(DeviceBody(d), 200)
                                 else Response(MethodErrorBody("Request type not valid", d.methods, m), 400)
  {
  }

  /** Only GET reaches "duck pond": a POST to it is refused with 400 and told the allowed methods. */
  lemma DuckPondOnlyGet()
    ensures GetDevice(DeviceKey(DuckPondName), "GET") == Response(DeviceBody(DuckPond), 200)
    ensures GetDevice(DeviceKey(DuckPondName), "POST")
            == Response(MethodErrorBody("Request type not valid", ["GET"], "POST"), 400)
  {
    DevicesTable();
    RegisteredAnswers(DeviceKey(DuckPondName), DuckPond, "GET");
    RegisteredAnswers(DeviceKey(DuckPondName), DuckPond, "POST");
  }

  /** The other two devices accept both GET and POST. */
  lemma GardenDevicesGetAndPost(m: string)
    requires m in {"GET", "POST"}
    ensures GetDevice(DeviceKey(CarrotPatchName), m) == Response(DeviceBody(CarrotPatch), 200)
    ensures GetDevice(DeviceKey(FrontLawnName), m) == Response(DeviceBody(FrontLawn), 200)
  {
    DevicesTable();
    RegisteredAnswers(DeviceKey(CarrotPatchName), CarrotPatch, m);
    RegisteredAnswers(DeviceKey(FrontLawnName), FrontLawn, m);
  }
}
