/**
 * The add/edit dialog (`DeviceFormDialog`): its initial form data, the
 * validity test that enables the save button, and the record the dialog
 * closes with on save.  The form is a plain record of strings; the id is
 * present only when the form was copied from an existing device.
 */
module DeviceForm {
  import opened Wrappers
  import opened Devices

  datatype FormData = FormData(id: Option<string>, name: string, deviceType: string, status: string, modelPath: string)

  /** A device without its id, as handed to the store's create and update operations. */
  datatype DeviceData = DeviceData(name: string, deviceType: string, status: string, modelPath: string)

  datatype Mode = Add | Edit

  /** What the viewer passes to the dialog: the mode and, when editing, a copy of the device. */
  datatype DialogData = DialogData(mode: Mode, device: Option<Device>)

  /** The form's field initialiser. */
  const DEFAULT_FORM := FormData(None, "", "Sensor", "Active", "/models/device1.glb")

  /** `{ ...device }`: every field of the device, id included. */
  function CopyOf(d: Device): FormData {
    FormData(Some(d.id), d.name, d.deviceType, d.status, d.modelPath)
  }

  /** The form data the constructor leaves: a copy of the device in edit mode with a device, else the defaults. */
  function InitialForm(data: DialogData): (r: FormData)
    ensures data.mode == Edit && data.device.Some? ==>
      var d := data.device.value;
      r.id == Some(d.id) && r.name == d.name && r.deviceType == d.deviceType && r.status == d.status && r.modelPath == d.modelPath
    ensures !(data.mode == Edit && data.device.Some?) ==>
      r.id.None? && r.name == "" && r.deviceType == "Sensor" && r.status == "Active" && r.modelPath == "/models/device1.glb"
  {
    if data.mode == Edit && data.device.Some? then CopyOf(data.device.value) else DEFAULT_FORM
  }

  /** JavaScript truthiness of a string. */
  predicate Truthy(s: string) {
    s != ""
  }

  /** The value of `a && b` on strings: `a` when it is falsy, otherwise `b`. */
  function JsAnd(a: string, b: string): string {
    if Truthy(a) then b else a
  }

  /** `!!(name && type && status && modelPath)`: holds exactly when all four fields are non-empty. */
  function IsValid(f: FormData): (r: bool)
    ensures r <==> f.name != "" && f.deviceType != "" && f.status != "" && f.modelPath != ""
  {
    Truthy(JsAnd(JsAnd(JsAnd(f.name, f.deviceType), f.status), f.modelPath))
  }

  /** `const { id, ...deviceData } = formData`. */
  function StripId(f: FormData): DeviceData {
    DeviceData(f.name, f.deviceType, f.status, f.modelPath)
  }

  /** `onSave`: the dialog closes with the form minus its id when the form is valid, and emits nothing otherwise. */
  function OnSave(f: FormData): (r: Option<DeviceData>)
    ensures r.Some? <==> IsValid(f)
    ensures r.Some? ==>
      r.value.name == f.name && r.value.deviceType == f.deviceType && r.value.status == f.status && r.value.modelPath == f.modelPath
  {
    if IsValid(f) then Some(StripId(f)) else None
  }

  /** The defaults leave the name empty, so a fresh add form cannot be saved until a name is typed; any name makes it valid. */
  lemma DefaultsNeedName(name: string)
    ensures !IsValid(InitialForm(DialogData(Add, None)))
    ensures OnSave(InitialForm(DialogData(Add, None))) == None
    ensures IsValid(InitialForm(DialogData(Add, None)).(name := name)) <==> name != ""
  {
  }

  /** Editing without a device to copy falls back to the defaults. */
  lemma EditWithoutDeviceUsesDefaults()
    ensures InitialForm(DialogData(Edit, None)) == InitialForm(DialogData(Add, None))
  {
  }

  /**
   * Saving an untouched edit form emits exactly the device's own fields,
   * so `updateDevice(device.id, result)` writes back what was there, and
   * putting the id back gives the device again; a device with an empty
   * field cannot be saved unchanged.
   */
  lemma UntouchedEditRoundTrip(d: Device)
    ensures var r := OnSave(InitialForm(DialogData(Edit, Some(d))));
      (r.Some? <==> d.name != "" && d.deviceType != "" && d.status != "" && d.modelPath != "") &&
      (r.Some? ==> Device(d.id, r.value.name, r.value.deviceType, r.value.status, r.value.modelPath) == d)
  {
  }
}
