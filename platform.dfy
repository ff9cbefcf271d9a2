/** Shared vocabulary of the model: pointers, result codes and the way a
    fatal error ends the process. Every Media Foundation, D3D11 or DXGI call
    is an oracle whose answer (an HRESULT) is a parameter of the model. */
module Platform {

  datatype Option<T> = None | Some(value: T)

  /** A C pointer; 0 is NULL. */
  type Ptr = nat
  const NULL: Ptr := 0

  /** HRESULT codes as signed 32-bit values. */
  const TwoTo32: int := 0x1_0000_0000
  const S_OK: int := 0
  const S_FALSE: int := 1
  const E_NOTIMPL: int := 0x8000_4001 - TwoTo32
  const E_NOINTERFACE: int := 0x8000_4002 - TwoTo32
  const MF_E_NOTACCEPTING: int := 0xC00D_36B5 - TwoTo32
  const MF_E_NO_MORE_TYPES: int := 0xC00D_36B9 - TwoTo32
  const MF_E_NO_EVENTS_AVAILABLE: int := 0xC00D_3E80 - TwoTo32
  const MF_E_SHUTDOWN: int := 0xC00D_3E85 - TwoTo32
  const MF_E_TRANSFORM_STREAM_CHANGE: int := 0xC00D_6D61 - TwoTo32
  const DXGI_ERROR_NOT_FOUND: int := 0x887A_0002 - TwoTo32
  const DXGI_ERROR_WAIT_TIMEOUT: int := 0x887A_0027 - TwoTo32
  const TYPE_E_ELEMENTNOTFOUND: int := 0x8002_802B - TwoTo32
  const TYPE_E_TYPEMISMATCH: int := 0x8002_8CA0 - TwoTo32

  predicate Succeeded(hr: int) { hr >= 0 }

  /** Control flow after a step: carry on, or the process has exited with a code
      (`exit_process`). */
  datatype Flow = Continue | Exit(code: int)

  /** The value a step produces, or the code the process exits with. */
  datatype Result<T> = Ok(value: T) | Fatal(code: int)

  /** A 128-bit class or type identifier: its four fields as in the Windows GUID. */
  datatype Guid = Guid(data1: nat, data2: nat, data3: nat, data4: seq<nat>)
}
