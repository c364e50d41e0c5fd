/** The transcoding check `codec_analysis` applies to each video file: a
    file needs transcoding when its codec, resolution, HDR flag or container
    is one that older or streaming players handle poorly. */
module Transcode {
  import Quality

  const HevcReason: string := "HEVC may not play on older devices"
  const UhdReason: string := "4K may require transcoding for streaming"
  const HdrReason: string := "HDR requires tone mapping for SDR displays"
  const AviReason: string := "AVI container is outdated"

  /** The reasons in the order the four checks run. */
  function ReasonsOf(quality: Quality.QualityScore, container: string): seq<string> {
    (if quality.codec == "HEVC/x265" then [HevcReason] else [])
    + (if quality.resolution == "2160p" then [UhdReason] else [])
    + (if quality.hdr then [HdrReason] else [])
    + (if container == "AVI" then [AviReason] else [])
  }

  /** The four checks: each one that holds sets the flag and appends its
      reason. `container` is the file's suffix, upper-cased, without dot. */
  method CheckTranscode(quality: Quality.QualityScore, container: string)
    returns (needsTranscode: bool, reasons: seq<string>)
    ensures reasons == ReasonsOf(quality, container)
    ensures needsTranscode <==> reasons != []
  {
    needsTranscode := false;
    reasons := [];
    if quality.codec == "HEVC/x265" {
      needsTranscode := true;
      reasons := reasons + [HevcReason];
    }
    if quality.resolution == "2160p" {
      needsTranscode := true;
      reasons := reasons + [UhdReason];
    }
    if quality.hdr {
      needsTranscode := true;
      reasons := reasons + [HdrReason];
    }
    if container == "AVI" {
      needsTranscode := true;
      reasons := reasons + [AviReason];
    }
  }

  /** Each reason is listed exactly when its condition holds, at most once,
      and a file needs transcoding exactly when one of the four holds. */
  lemma ReasonsExactly(quality: Quality.QualityScore, container: string)
    ensures var r := ReasonsOf(quality, container);
      && (HevcReason in r <==> quality.codec == "HEVC/x265")
      && (UhdReason in r <==> quality.resolution == "2160p")
      && (HdrReason in r <==> quality.hdr)
      && (AviReason in r <==> container == "AVI")
      && (forall i, j :: 0 <= i < j < |r| ==> r[i] != r[j])
      && (r != [] <==> quality.codec == "HEVC/x265" || quality.resolution == "2160p" || quality.hdr || container == "AVI")
  {
    ReasonsDiffer();
  }

  lemma ReasonsDiffer()
    ensures HevcReason != UhdReason && HevcReason != HdrReason && HevcReason != AviReason
    ensures UhdReason != HdrReason && UhdReason != AviReason && HdrReason != AviReason
  {
    assert HevcReason[0] == 'H' && UhdReason[0] == '4' && HdrReason[0] == 'H' && AviReason[0] == 'A';
    assert HevcReason[1] == 'E' && HdrReason[1] == 'D';
  }

  /** A file whose name carries no quality token gets no reason unless its
      container is AVI. */
  lemma UnratedNeedsOnlyContainer(container: string)
    ensures ReasonsOf(Quality.Unrated, container) == if container == "AVI" then [AviReason] else []
  {
    assert Quality.Unrated.codec == "Unknown" && Quality.Unrated.resolution == "Unknown";
    assert "Unknown" != "HEVC/x265" by { assert "Unknown"[0] != "HEVC/x265"[0]; }
    assert "Unknown" != "2160p" by { assert "Unknown"[0] != "2160p"[0]; }
  }
}
