/** The (r, g, b) colour tuples both source files paint electrodes with. */
module Colors {

  datatype Rgb = Rgb(r: int, g: int, b: int)

  /** An electrode with no channel assigned. */
  const Red := Rgb(1, 0, 0)
  /** An electrode whose channels are all on. */
  const White := Rgb(1, 1, 1)
  /** An electrode whose channels are all off; also a new electrode's colour. */
  const Blue := Rgb(0, 0, 1)
}
