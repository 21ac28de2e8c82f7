/**
 * The collaborators the image pipeline consumes but does not define: the file
 * system, the HTTP client, the background executor and the error values of the
 * foreign libraries. Each is a capability given as a parameter.
 */
module Platform {
  import opened Base

  /** Rust's `i32`. */
  type i32 = x: int | -0x8000_0000 <= x < 0x8000_0000

  /** A `Size<DevicePixels>`: two `i32` pixel counts. */
  datatype DeviceSize = DeviceSize(width: i32, height: i32)

  /** A `std::io::Error`; only its identity matters. */
  datatype IoError = IoError(kind: nat)

  /** An `http::Error` raised by the HTTP client. */
  datatype HttpError = HttpError(reason: nat)

  /** An `image::ImageError` raised by a raster decoder. */
  datatype ImageError = ImageError(reason: nat)

  /** A `resvg::usvg::Error` raised by the SVG parser. */
  datatype UsvgError = UsvgError(reason: nat)

  /** `http::StatusCode`: a three-digit code. */
  type StatusCode = s: nat | 100 <= s <= 999 witness 200

  /** `StatusCode::is_success`: the 2xx range. */
  predicate IsSuccess(status: StatusCode)
  {
    200 <= status <= 299
  }

  /**
   * A response of the HTTP client. `body` is the outcome of reading the whole
   * body stream (`read_to_end`), which can fail with an I/O error.
   */
  datatype Response = Response(status: StatusCode, body: Result<Bytes, IoError>)

  /** `HttpClient::get(uri, options, follow_redirects)`. */
  datatype HttpClient = HttpClient(get: (string, bool) -> Result<Response, HttpError>)

  /** `std::fs::read`: the whole contents of a file, or an I/O error. */
  datatype FileSystem = FileSystem(read: string -> Result<Bytes, IoError>)

  /** The identity of a spawned background task; every clone of a `Shared` task has the same one. */
  datatype TaskHandle = TaskHandle(index: nat)

  /** The background executor: it records every job spawned on it, in order. */
  class BackgroundExecutor<J> {
    var spawned: seq<J>

    constructor ()
      ensures spawned == []
    {
      spawned := [];
    }

    /** Spawns `job`; the handle returned names this spawn and no earlier one. */
    method Spawn(job: J) returns (handle: TaskHandle)
      modifies this
      ensures spawned == old(spawned) + [job]
      ensures handle == TaskHandle(|old(spawned)|)
    {
      handle := TaskHandle(|spawned|);
      spawned := spawned + [job];
    }
  }
}
