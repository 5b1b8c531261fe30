/** Mimicry profile identifiers, shared by packet headers and handshake messages. */
module Profiles {
  import opened Bytes
  import opened Wrappers

  datatype MimicryProfile = Plain | VkVideo | YandexMusic | RuTube {
    function ToU16(): u16 {
      match this
      case Plain => 0
      case VkVideo => 1
      case YandexMusic => 2
      case RuTube => 3
    }
  }

  lemma ProfileNumbers()
    ensures Plain.ToU16() == 0 && VkVideo.ToU16() == 1 && YandexMusic.ToU16() == 2 && RuTube.ToU16() == 3
  {
  }

  function FromU16(value: u16): (p: Option<MimicryProfile>)
    ensures forall q: MimicryProfile :: p == Some(q) <==> q.ToU16() == value
  {
    match value
    case 0 => Some(Plain)
    case 1 => Some(VkVideo)
    case 2 => Some(YandexMusic)
    case 3 => Some(RuTube)
    case _ => None
  }
}
