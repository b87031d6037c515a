/**
 * A device record as read from the store's device stream.  The store
 * assigns `id`; the other fields are the strings the form edits.
 */
module Devices {
  // `type` is a Dafny keyword, so the device type is the field `deviceType`.
  datatype Device = Device(id: string, name: string, deviceType: string, status: string, modelPath: string)
}
