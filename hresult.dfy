// HRESULT status codes as the sources test them.
module HResults {

  /** An HRESULT as its 32 unsigned bits. */
  type HResult = x: int | 0 <= x < 0x1_0000_0000

  const S_OK: HResult := 0
  const E_FAIL: HResult := 0x8000_4005

  /** FAILED(hr): the sign bit of the HRESULT is set. */
  predicate Failed(hr: HResult)
  {
    hr >= 0x8000_0000
  }
}
