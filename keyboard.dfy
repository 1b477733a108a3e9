/**
 * The part of pygame's pressed-key state the game reads. Each direction is
 * "either of its two keys is down": `left` is K_LEFT or K_a, `right` is
 * K_RIGHT or K_d, `up` is K_UP or K_w, `down` is K_DOWN or K_s; `two`,
 * `three` and `four` are the number keys 2, 3 and 4.
 */
module Keyboard {

  datatype Keys = Keys(left: bool, right: bool, up: bool, down: bool, two: bool, three: bool, four: bool)

  const NoKeys: Keys := Keys(false, false, false, false, false, false, false)

}
