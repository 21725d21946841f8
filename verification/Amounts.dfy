/** Integer money: checked 128-bit amounts tagged with their asset. */
module Amounts {
  import opened Prelude

  type AssetId = string

  datatype AssetAmount = AssetAmount(asset: AssetId, atoms: I128)

  datatype AmountError = AssetMismatch(left: AssetId, right: AssetId) | AmountOverflow

  function AddAmounts(a: AssetAmount, b: AssetAmount): Result<AssetAmount, AmountError> {
    if a.asset != b.asset then Err(AssetMismatch(a.asset, b.asset))
    else if FitsI128(a.atoms + b.atoms) then Ok(AssetAmount(a.asset, a.atoms + b.atoms))
    else Err(AmountOverflow)
  }

  function SubAmounts(a: AssetAmount, b: AssetAmount): Result<AssetAmount, AmountError> {
    if a.asset != b.asset then Err(AssetMismatch(a.asset, b.asset))
    else if FitsI128(a.atoms - b.atoms) then Ok(AssetAmount(a.asset, a.atoms - b.atoms))
    else Err(AmountOverflow)
  }
}
