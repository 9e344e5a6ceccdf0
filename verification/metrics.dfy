/** What the daemon can show on a dial, and how each dial is configured. */
module Metrics {
  import opened Wrappers
  import Dial

  /** `Metric`. */
  datatype Metric = CpuLoad | Mem | DiskUsage | CpuTemp | Swap | Battery

  /** `Metric::dial_name`: the name a dial showing `m` is given. */
  function DialName(m: Metric): (s: string)
    ensures s != []
  {
    match m
    case Battery => "Battery Remaining"
    case DiskUsage => "Disk Usage"
    case CpuLoad => "CPU Load"
    case CpuTemp => "CPU Temperature"
    case Swap => "Swap Usage"
    case Mem => "Memory Usage"
  }

  /** Different metrics give their dials different names, so a name
      identifies the metric. */
  lemma DialNameInjective(a: Metric, b: Metric)
    ensures DialName(a) == DialName(b) <==> a == b
  {
  }

  /** The background image bundled for a metric; its bytes are not modelled. */
  datatype ImgFile = ImgFile(name: string)

  /** `Metric::img_file`. */
  function ImgFileOf(m: Metric): (r: Option<ImgFile>)
    ensures r.Some?
  {
    match m
    case Swap => Some(ImgFile("swap.png"))
    case CpuLoad => Some(ImgFile("cpu_load.png"))
    case CpuTemp => Some(ImgFile("cpu_temp.png"))
    case Mem => Some(ImgFile("mem.png"))
    case DiskUsage => Some(ImgFile("disk.png"))
    case Battery => Some(ImgFile("battery.png"))
  }

  /** No two metrics share an image. */
  lemma ImgFileInjective(a: Metric, b: Metric)
    ensures ImgFileOf(a) == ImgFileOf(b) ==> a == b
  {
    if a != b {
      assert ImgFileOf(a).value.name != ImgFileOf(b).value.name by {
        match a
        case Swap => assert ImgFileOf(a).value.name[..2] == "sw";
        case CpuLoad => assert ImgFileOf(a).value.name[..5] == "cpu_l";
        case CpuTemp => assert ImgFileOf(a).value.name[..5] == "cpu_t";
        case Mem => assert ImgFileOf(a).value.name[..1] == "m";
        case DiskUsage => assert ImgFileOf(a).value.name[..1] == "d";
        case Battery => assert ImgFileOf(a).value.name[..1] == "b";
      }
    }
  }

  /** Every image is a PNG file. */
  lemma ImgFileIsPng(m: Metric)
    ensures var n := ImgFileOf(m).value.name; |n| > 4 && n[|n| - 4..] == ".png"
  {
    match m
    case Swap => assert "swap.png"[4..] == ".png";
    case CpuLoad => assert "cpu_load.png"[8..] == ".png";
    case CpuTemp => assert "cpu_temp.png"[8..] == ".png";
    case Mem => assert "mem.png"[3..] == ".png";
    case DiskUsage => assert "disk.png"[4..] == ".png";
    case Battery => assert "battery.png"[7..] == ".png";
  }

  /** Every metric has its own image, and every image is a PNG file. */
  lemma ImgFileDistinct(a: Metric, b: Metric)
    ensures ImgFileOf(a) == ImgFileOf(b) <==> a == b
    ensures var n := ImgFileOf(a).value.name; |n| > 4 && n[|n| - 4..] == ".png"
  {
    ImgFileInjective(a, b);
    ImgFileIsPng(a);
  }

  /** The daemon's `Easing`: a period in milliseconds and a step. */
  datatype EasingConfig = EasingConfig(periodMs: nat, step: Dial.Percent)

  /** `DialConfig`: which dial (by index), what it shows, how often, and the
      easing to configure it with, if any. */
  datatype DialConfig = DialConfig(index: nat, metric: Metric, updateIntervalMs: nat,
                                   dialEasing: Option<EasingConfig>,
                                   backlightEasing: Option<EasingConfig>)
}
