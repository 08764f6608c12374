/** Values shared by the installer and its environment (companion/contracts.ts). */
module Contracts {
  import opened Paths

  datatype Option<+T> = None | Some(value: T)

  /** The parsed shell.json: the two plugin fields in key order, and everything else. */
  datatype ShellDocument = ShellDocument(
    enabled: seq<string>,
    sources: seq<(string, Option<Path>)>,
    rest: string)

  /** The bytes of shell.json: what they parse to and how they are laid out ("" is JSON.stringify's layout). */
  datatype ShellBytes = ShellBytes(document: ShellDocument, layout: string)

  /** A release: its version and its assets by path relative to the plugin root. */
  datatype Release = Release(version: string, assets: map<Path, string>)

  datatype AssetReceipt = AssetReceipt(bytes: string, owner: string, mode: nat, inode: nat)

  /** The installation receipt. An asset's digest is represented by the bytes it is the digest of. */
  datatype Receipt = Receipt(
    release: Release,
    previous: Option<Release>,
    assets: map<Path, AssetReceipt>,
    preimage: ShellBytes,
    postimage: ShellBytes)

  /** File contents: plain text, or the canonical JSON of a receipt (an injective printer). */
  datatype Content = Text(text: string) | ReceiptText(receipt: Receipt)

  const DIRECTORY_MODE: nat := 493  // 0o755
  const ASSET_MODE: nat := 420      // 0o644
  const RECEIPT_MODE: nat := 384    // 0o600
  const STAGE_MODE: nat := 448      // 0o700
}
