/** `useragent.Parse`: a thin wrapper over the uap-go library. The library's
    rules table is loaded on every call and the loading can fail; the
    matching itself is an uninterpreted classifier. */
module UserAgent {
  import opened Wrappers

  datatype BrowserInfo = BrowserInfo(family: string, major: string, minor: string, patch: string)

  datatype OSInfo = OSInfo(family: string, major: string, minor: string, patch: string, patchMinor: string)

  datatype DeviceInfo = DeviceInfo(family: string, brand: string, model: string)

  /** What the library reports for one user-agent line. */
  datatype Client = Client(userAgent: BrowserInfo, os: OSInfo, device: DeviceInfo)

  /** The library's matching rules applied to one line. */
  type Classifier = string -> Client

  /** `useragent.Record`: the raw line and the flattened client fields. */
  datatype Record = Record(
    raw: string,
    uaFamily: string,
    uaMajor: string,
    uaMinor: string,
    uaPatch: string,
    uaOSFamily: string,
    uaOSMajor: string,
    uaOSMinor: string,
    uaOSPatch: string,
    uaOSPatchMinor: string,
    uaDeviceFamily: string,
    uaDeviceBrand: string,
    uaDeviceModel: string)

  /** Regroups a record's flat fields into the library's nested shape. */
  function ClientOf(r: Record): Client {
    Client(
      BrowserInfo(r.uaFamily, r.uaMajor, r.uaMinor, r.uaPatch),
      OSInfo(r.uaOSFamily, r.uaOSMajor, r.uaOSMinor, r.uaOSPatch, r.uaOSPatchMinor),
      DeviceInfo(r.uaDeviceFamily, r.uaDeviceBrand, r.uaDeviceModel))
  }

  /** `Parse(line)`, given the outcome of loading the rules table. It fails
      exactly when the table fails to load, whatever the line; otherwise it
      keeps the line verbatim and loses none of the classifier's answer. */
  function Parse(definitions: Result<Classifier, string>, line: string): (r: Result<Record, string>)
    ensures r.Success? <==> definitions.Success?
    ensures r.Failure? ==> r.error == definitions.error
    ensures r.Success? ==> r.value.raw == line && ClientOf(r.value) == definitions.value(line)
  {
    match definitions
    case Failure(e) => Failure(e)
    case Success(classify) =>
      var client := classify(line);
      Success(Record(
        raw := line,
        uaFamily := client.userAgent.family,
        uaMajor := client.userAgent.major,
        uaMinor := client.userAgent.minor,
        uaPatch := client.userAgent.patch,
        uaOSFamily := client.os.family,
        uaOSMajor := client.os.major,
        uaOSMinor := client.os.minor,
        uaOSPatch := client.os.patch,
        uaOSPatchMinor := client.os.patchMinor,
        uaDeviceFamily := client.device.family,
        uaDeviceBrand := client.device.brand,
        uaDeviceModel := client.device.model))
  }
}
