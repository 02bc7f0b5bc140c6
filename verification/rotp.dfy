/**
 * The part of the ROTP gem the controller uses: `ROTP::TOTP.new(secret, issuer:)`
 * and `provisioning_uri(name)`. The otpauth string layout is not modelled: a
 * provisioning URI is the symbolic value of the three things it encodes.
 * Code derivation (`ROTP::TOTP#verify`) is a capability of `Registry.Oracles`.
 */
module Rotp {

  /** Base32 secret, as returned by `ROTP::Base32.random_base32`. */
  type OtpSecret = string

  /** An `ROTP::TOTP` object: its secret and its issuer label. */
  datatype Totp = Totp(secret: OtpSecret, issuer: string)

  /** "otpauth://totp/<issuer>:<accountName>?secret=<secret>&issuer=<issuer>". */
  datatype Uri = OtpAuthUri(secret: OtpSecret, issuer: string, accountName: string)

  /** `ROTP::TOTP#provisioning_uri(name)`. */
  function ProvisioningUri(totp: Totp, name: string): Uri
  {
    OtpAuthUri(totp.secret, totp.issuer, name)
  }
}
