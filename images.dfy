/**
 * The `images/` directory that `graphFunc` and `heatMap` write their
 * figures to. Files are named by the POSIX time at which they were saved;
 * a name is treated here as an opaque stamp, and a file's content as the
 * description of what was drawn.
 */
module Images {
  import Chart

  /** The time stamp a figure is saved under (`images/<stamp>.png`). */
  type Stamp = int

  /** The content of a saved figure. */
  datatype Image =
    | LineChart(plot: Chart.Plot)  // a `graphFunc` chart
    | GardenMap                    // a `heatMap` figure: the garden base map

  class ImageDir {
    var images: map<Stamp, Image>

    constructor (initial: map<Stamp, Image>)
      ensures images == initial
    {
      images := initial;
    }

    /** At most one figure is kept. */
    predicate SingleSlot()
      reads this
    {
      |images| <= 1
    }

    /** `os.system("rm -f images/<everything>")`: every saved figure is deleted. */
    method RemoveAll()
      modifies this
      ensures images == map[]
      ensures SingleSlot()
    {
      images := map[];
    }

    /** `plt.savefig(f"images/{stamp}.png")`: a file of the same name is replaced. */
    method Save(stamp: Stamp, figure: Image)
      modifies this
      ensures images == old(images)[stamp := figure]
      ensures stamp in images && images[stamp] == figure
    {
      images := images[stamp := figure];
    }
  }
}
