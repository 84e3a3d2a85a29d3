// Types shared by every part of the model.
module Base {

  datatype Option<+T> = None | Some(value: T)

  // A byte of a transfer buffer.
  newtype byte = x: int | 0 <= x < 256

  // The errors a stream can report. Usb stands for every libusb error code and
  // every transfer status other than "completed", Refused for the errors gousb
  // makes up itself when it is misused.
  datatype Error = EOF | ErrClosedPipe | Refused | Usb(code: int)

  datatype Result<+T> = Ok(value: T) | Err(error: Error)

  const NOT_FOUND := Usb(-5)

  function Min(a: nat, b: nat): (m: nat)
    ensures m <= a && m <= b && (m == a || m == b)
  {
    if a <= b then a else b
  }

  function Max(a: int, b: int): (m: int)
    ensures m >= a && m >= b && (m == a || m == b)
  {
    if a >= b then a else b
  }
}
