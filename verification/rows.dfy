/**
 * The rendered table, abstracted from React elements.  The translation
 * function `t` is taken to be the identity on its key, so a label is the
 * translation key itself, with the `{ count }` interpolation parameter kept
 * beside it.
 */
module Rows {
  import opened Wrappers

  const NotAvailable: string := "N/A"

  /** The value cell of a row: plain text, or a download (down arrow) and an upload (up arrow) part. */
  datatype Cell = Text(text: string) | UpDown(download: string, upload: string)

  /**
   * One table row: its React `key` when it has one, the translation key of its
   * label, the `count` passed to the translation, the value cell, and whether
   * the "peer to peer" marker follows the value.
   */
  datatype Row = Row(key: Option<string>, labelKey: string, count: Option<nat>, cell: Cell, peerToPeer: bool)
}
