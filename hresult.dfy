/** The COM result codes the text service returns, as 32-bit patterns. */
module HResults {
  import opened Ints

  type HResult = U32

  const S_OK: HResult := 0
  const S_FALSE: HResult := 1
  const E_FAIL: HResult := 0x8000_4005
  const E_INVALIDARG: HResult := 0x8007_0057
  const CONNECT_E_CANNOTCONNECT: HResult := 0x8004_0202

  /** An HRESULT reports failure when its severity bit is set. */
  predicate Failed(hr: HResult)
  {
    hr >= 0x8000_0000
  }
}
