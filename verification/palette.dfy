/** The dashboard's status colours, shared by the map and the 3D view. */
module Palette {

  datatype Colour = Green | Blue | Amber | Red
}
